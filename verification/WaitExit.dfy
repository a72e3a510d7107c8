/**
 fork, wait and exit (proc.c) over sleep_prepare, sleep and wakeup, by any
 number of processes.  A step is one section under wait_lock or a p->lock,
 one slot of a scan, or one slot of a wakeup.
 */
module WaitExit {
  import opened Wrappers

  const INIT: nat := 0

  datatype Life = Unused | Used | Alive | Zombie

  datatype Pc =
    | Gone                      // not executing: unused, not started yet, or a zombie
    | Running                   // outside the three system calls
    | Starting(c: nat)          // kfork: child c has a parent and is not runnable yet
    | WantWait                  // kwait, waiting for wait_lock
    | Scan(i: nat, kids: bool)  // kwait holds wait_lock, the scan is at slot i
    | Prepared                  // kwait holds wait_lock, sleep_prepare done
    | Drifting                  // kwait has released wait_lock, sleep() has not tested p->chan yet
    | Asleep                    // SLEEPING
    | WantExit                  // kexit, waiting for wait_lock
    | Reparent(i: nat)          // reparent is at slot i
    | Adopt(i: nat, j: nat)     // child i was given to init; wakeup(initproc) is at slot j
    | Notify(j: nat)            // wakeup(p->parent) is at slot j
    | Dying                     // about to become a zombie, still holding wait_lock

  /**
   chan: p->chan is p, the channel of kwait.  missed: a wakeup on it has
   reached p since p's last sleep_prepare.
   */
  datatype Proc = Proc(pc: Pc, life: Life, parent: Option<nat>, chan: bool, missed: bool, killed: bool)

  datatype State = State(procs: seq<Proc>, lock: Option<nat>)

  datatype Event =
    | Run(p: nat)            // the next section of p
    | CopyFails(p: nat)      // kwait finds a zombie, copyout of the status fails
    | Kill(p: nat)           // kkill: sets killed, and wakes p without touching p->chan
    | Register(p: nat)       // p calls sleep_prepare on a channel of its own business
    | Fork(p: nat, c: nat)   // kfork takes slot c and sets its parent under wait_lock
    | CallWait(p: nat)
    | CallExit(p: nat)

  predicate NeedsLock(pc: Pc) { pc.WantWait? || pc.WantExit? }

  /** The scan of p stands on a zombie child of p. */
  predicate AtZombie(s: State, p: nat) {
    && p < |s.procs| && s.procs[p].pc.Scan? && s.procs[p].pc.i < |s.procs|
    && s.procs[s.procs[p].pc.i].parent == Some(p) && s.procs[s.procs[p].pc.i].life.Zombie?
  }

  predicate Enabled(s: State, e: Event) {
    && e.p < |s.procs|
    && var pc := s.procs[e.p].pc;
       match e
       case Run(p) => !pc.Gone? && !pc.Running? && !pc.Asleep? && (NeedsLock(pc) ==> s.lock.None?)
                      && (pc.Starting? ==> pc.c < |s.procs|)
       case CopyFails(p) => AtZombie(s, p)
       case Kill(p) => s.procs[p].life.Alive?
       case Register(p) => pc.Running?
       case Fork(p, c) => pc.Running? && s.lock.None? && c < |s.procs| && s.procs[c].life.Unused?
       case CallWait(p) => pc.Running?
       case CallExit(p) => pc.Running? && p != INIT
  }

  function Set(s: State, p: nat, q: Proc): State
    requires p < |s.procs|
  {
    s.(procs := s.procs[p := q])
  }

  function Move(s: State, p: nat, pc: Pc): State
    requires p < |s.procs|
  {
    Set(s, p, s.procs[p].(pc := pc))
  }

  /** wakeup(target)'s visit of slot j. */
  function Visit(s: State, j: nat, target: nat): State
    requires j < |s.procs|
  {
    var q := s.procs[j];
    if j != target || !q.chan then s else
      Set(s, j, q.(chan := false, missed := true, pc := if q.pc.Asleep? then WantWait else q.pc))
  }

  /** freeproc: the slot can be used again. */
  function Free(): Proc {
    Proc(Gone, Unused, None, false, false, false)
  }

  function ScanStep(s: State, p: nat): State
    requires p < |s.procs| && s.procs[p].pc.Scan?
  {
    var Scan(i, kids) := s.procs[p].pc;
    if i < |s.procs| then
      if s.procs[i].parent != Some(p) then Move(s, p, Scan(i + 1, kids))
      else if s.procs[i].life.Zombie? then Move(Set(s, i, Free()), p, Running).(lock := None)
      else Move(s, p, Scan(i + 1, true))
    else if !kids || s.procs[p].killed then Move(s, p, Running).(lock := None)
    else Set(s, p, s.procs[p].(pc := Prepared, chan := true, missed := false))
  }

  function ExitStep(s: State, p: nat): State
    requires p < |s.procs|
  {
    match s.procs[p].pc
    case Reparent(i) =>
      if i < |s.procs| then
        if s.procs[i].parent == Some(p)
        then Move(Set(s, i, s.procs[i].(parent := Some(INIT))), p, Adopt(i, 0))
        else Move(s, p, Reparent(i + 1))
      else Move(s, p, Notify(0))
    case Adopt(i, j) =>
      if j < |s.procs| then Move(Visit(s, j, INIT), p, Adopt(i, j + 1)) else Move(s, p, Reparent(i + 1))
    case Notify(j) =>
      if j < |s.procs| && s.procs[p].parent.Some?
      then Move(Visit(s, j, s.procs[p].parent.value), p, Notify(j + 1))
      else Move(s, p, Dying)
    case Dying => Set(s, p, s.procs[p].(pc := Gone, life := Zombie)).(lock := None)
    case _ => s
  }

  function Section(s: State, p: nat): State
    requires Enabled(s, Run(p))
  {
    match s.procs[p].pc
    case Starting(c) => Move(Set(s, c, s.procs[c].(life := Alive, pc := Running)), p, Running)
    case WantWait => Move(s, p, Scan(0, false)).(lock := Some(p))
    case WantExit => Move(s, p, Reparent(0)).(lock := Some(p))
    case Scan(_, _) => ScanStep(s, p)
    case Prepared => Move(s, p, Drifting).(lock := None)
    case Drifting => Move(s, p, if s.procs[p].chan then Asleep else WantWait)
    case _ => ExitStep(s, p)
  }

  function Step(s: State, e: Event): State
    requires Enabled(s, e)
  {
    match e
    case Run(p) => Section(s, p)
    case CopyFails(p) => Move(s, p, Running).(lock := None)
    case Kill(p) =>
      var q := s.procs[p];
      Set(s, p, q.(killed := true, pc := if q.pc.Asleep? then WantWait else q.pc))
    case Register(p) => Set(s, p, s.procs[p].(chan := false))
    case Fork(p, c) => Move(Set(s, c, Proc(Gone, Used, Some(p), false, false, false)), p, Starting(c))
    case CallWait(p) => Move(s, p, WantWait)
    case CallExit(p) => Move(s, p, WantExit)
  }

  predicate InLock(pc: Pc) {
    pc.Scan? || pc.Prepared? || pc.Reparent? || pc.Adopt? || pc.Notify? || pc.Dying?
  }

  predicate Exiting(pc: Pc) { pc.Reparent? || pc.Adopt? || pc.Notify? || pc.Dying? || pc.WantExit? }

  ghost predicate LockOk(s: State) {
    && (forall i :: 0 <= i < |s.procs| ==> (InLock(s.procs[i].pc) <==> s.lock == Some(i)))
    && (s.lock.Some? ==> s.lock.value < |s.procs|)
  }

  ghost predicate ProcOk(s: State, i: nat)
    requires i < |s.procs|
  {
    var p := s.procs[i];
    && (p.pc.Gone? <==> !p.life.Alive?)
    && (p.parent.Some? ==> p.parent.value < |s.procs| && p.parent.value != i && s.procs[p.parent.value].life.Alive?)
    && (i == INIT ==> p.life.Alive? && p.parent.None? && !Exiting(p.pc))
    && (i != INIT && !p.life.Unused? ==> p.parent.Some?)
    && (p.life.Unused? ==> p.parent.None?)
    && (p.life.Unused? || p.life.Used? ==> !p.chan)
    && (p.pc.Starting? ==> p.pc.c < |s.procs| && s.procs[p.pc.c].life.Used? && s.procs[p.pc.c].parent == Some(i))
    && (p.pc.Asleep? ==> p.chan)
    && (p.chan ==> !p.missed)
  }

  /** Every process in use has a live parent, and a process asleep in kwait has missed no wakeup. */
  ghost predicate Shape(s: State) {
    INIT < |s.procs| && forall i :: 0 <= i < |s.procs| ==> ProcOk(s, i)
  }

  predicate ChildOf(s: State, c: nat, p: nat) { c < |s.procs| && s.procs[c].parent == Some(p) }

  /** What the holder of wait_lock has established so far. */
  ghost predicate Progress(s: State, p: nat)
    requires p < |s.procs|
  {
    match s.procs[p].pc
    case Scan(i, kids) =>
      && (forall c: nat :: c < i && ChildOf(s, c, p) ==> !s.procs[c].life.Zombie?)
      && (kids <==> exists c: nat :: c < i && ChildOf(s, c, p))
    case Prepared => forall c: nat :: ChildOf(s, c, p) ==> !s.procs[c].life.Zombie?
    case Reparent(i) => forall c: nat :: c < i ==> !ChildOf(s, c, p)
    case Adopt(i, j) => forall c: nat :: c <= i ==> !ChildOf(s, c, p)
    case Notify(j) =>
      && (forall c: nat :: !ChildOf(s, c, p))
      && (s.procs[p].parent.Some? && s.procs[p].parent.value < j && s.procs[p].parent.value < |s.procs| ==>
            !s.procs[s.procs[p].parent.value].chan)
    case Dying =>
      && (forall c: nat :: !ChildOf(s, c, p))
      && (s.procs[p].parent.Some? && s.procs[p].parent.value < |s.procs| ==> !s.procs[s.procs[p].parent.value].chan)
    case _ => true
  }

  /** The holder of wait_lock is about to wake init. */
  predicate WakingInit(s: State) {
    s.lock.Some? && s.lock.value < |s.procs| && s.procs[s.lock.value].pc.Adopt? && s.procs[s.lock.value].pc.j <= INIT
  }

  /** A zombie's parent is not registered in kwait, unless it is init and its wakeup is on the way. */
  ghost predicate Told(s: State) {
    forall c: nat, q: nat :: ChildOf(s, c, q) && q < |s.procs| && s.procs[c].life.Zombie? && s.procs[q].chan ==>
                                  q == INIT && WakingInit(s)
  }

  ghost predicate Inv(s: State) {
    LockOk(s) && Shape(s) && Told(s) && (s.lock.Some? ==> Progress(s, s.lock.value))
  }

  /** Only slot p changes, neither its life nor its parent, and it is not newly registered. */
  ghost predicate Local(s: State, t: State, p: nat) {
    && p < |s.procs| == |t.procs| && t.procs == s.procs[p := t.procs[p]]
    && t.procs[p].life == s.procs[p].life && t.procs[p].parent == s.procs[p].parent
    && (t.procs[p].chan ==> s.procs[p].chan)
  }

  lemma LocalShape(s: State, t: State, p: nat)
    requires Shape(s) && Local(s, t, p) && ProcOk(t, p)
    ensures Shape(t)
  {
    forall i | 0 <= i < |t.procs| ensures ProcOk(t, i) {
      assert ProcOk(s, i);
    }
  }

  lemma LocalTold(s: State, t: State, p: nat)
    requires Told(s) && Local(s, t, p) && INIT < |s.procs|
    requires WakingInit(s) && s.procs[INIT].chan ==> WakingInit(t)
    ensures Told(t)
  {
  }

  lemma LocalProgress(s: State, t: State, p: nat, h: nat)
    requires h < |s.procs| && Local(s, t, p) && t.procs[h].pc == s.procs[h].pc && Progress(s, h)
    ensures Progress(t, h)
  {
    assert forall c: nat :: ChildOf(t, c, h) == ChildOf(s, c, h);
  }

  /** A step of a process that does not hold wait_lock. */
  lemma OutsideInv(s: State, t: State, p: nat)
    requires Inv(s) && Local(s, t, p) && ProcOk(t, p) && t.lock == s.lock
    requires InLock(s.procs[p].pc) || InLock(t.procs[p].pc) ==> s.procs[p].pc == t.procs[p].pc
    ensures Inv(t)
  {
    LocalShape(s, t, p);
    LocalTold(s, t, p);
    if s.lock.Some? { LocalProgress(s, t, p, s.lock.value); }
  }

  /** A step of the holder within its own slot that leaves it the holder, or lets go. */
  lemma HolderInv(s: State, t: State, p: nat)
    requires Inv(s) && s.lock == Some(p) && Local(s, t, p) && ProcOk(t, p)
    requires WakingInit(s) ==> !s.procs[INIT].chan
    requires (t.lock == Some(p) && InLock(t.procs[p].pc) && Progress(t, p))
      || (t.lock == None && !InLock(t.procs[p].pc))
    ensures Inv(t)
  {
    LocalShape(s, t, p);
    LocalTold(s, t, p);
  }

  lemma EnterInv(s: State, p: nat)
    requires Inv(s) && Enabled(s, Run(p)) && NeedsLock(s.procs[p].pc)
    ensures Inv(Section(s, p))
  {
    var t := Section(s, p);
    assert ProcOk(s, p);
    LocalShape(s, t, p);
    LocalTold(s, t, p);
  }

  lemma StartShape(s: State, p: nat)
    requires Inv(s) && Enabled(s, Run(p)) && s.procs[p].pc.Starting?
    ensures Shape(Section(s, p)) && LockOk(Section(s, p))
  {
    hide Told, Progress;
    var t := Section(s, p);
    assert ProcOk(s, p) && ProcOk(s, s.procs[p].pc.c);
    forall i | 0 <= i < |t.procs| ensures ProcOk(t, i) {
      assert ProcOk(s, i);
    }
  }

  lemma StartInv(s: State, p: nat)
    requires Inv(s) && Enabled(s, Run(p)) && s.procs[p].pc.Starting?
    ensures Inv(Section(s, p))
  {
    StartShape(s, p);
    var t := Section(s, p);
    assert ProcOk(s, p) && ProcOk(s, s.procs[p].pc.c);
    hide Shape, ProcOk;
    assert forall d: nat, q: nat :: ChildOf(t, d, q) == ChildOf(s, d, q);
  }

  lemma ForkInv(s: State, p: nat, c: nat)
    requires Inv(s) && Enabled(s, Fork(p, c))
    ensures Inv(Step(s, Fork(p, c)))
  {
    var t := Step(s, Fork(p, c));
    assert ProcOk(s, p) && ProcOk(s, c);
    assert forall d: nat, q: nat :: d != c ==> ChildOf(t, d, q) == ChildOf(s, d, q);
    forall i | 0 <= i < |t.procs| ensures ProcOk(t, i) {
      assert ProcOk(s, i);
    }
  }

  lemma ReapInv(s: State, p: nat)
    requires Inv(s) && AtZombie(s, p)
    ensures Inv(ScanStep(s, p))
  {
    var t := ScanStep(s, p);
    var c := s.procs[p].pc.i;
    assert ProcOk(s, p) && ProcOk(s, c);
    assert forall d: nat, q: nat :: d != c ==> ChildOf(t, d, q) == ChildOf(s, d, q);
    forall i | 0 <= i < |t.procs| ensures ProcOk(t, i) {
      assert ProcOk(s, i);
    }
  }

  lemma PrepareInv(s: State, p: nat)
    requires Inv(s) && p < |s.procs| && s.procs[p].pc.Scan? && s.procs[p].pc.i >= |s.procs|
    ensures Inv(ScanStep(s, p))
  {
    var t := ScanStep(s, p);
    assert forall i | 0 <= i < |t.procs| :: ProcOk(t, i) by {
      hide Told, Progress;
      forall i | 0 <= i < |t.procs| ensures ProcOk(t, i) {
        assert ProcOk(s, i) && ProcOk(s, p);
      }
    }
    hide ProcOk;
    assert forall d: nat, q: nat :: ChildOf(t, d, q) == ChildOf(s, d, q);
  }

  lemma ScanInv(s: State, p: nat)
    requires Inv(s) && p < |s.procs| && s.procs[p].pc.Scan?
    ensures Inv(ScanStep(s, p))
  {
    if AtZombie(s, p) {
      ReapInv(s, p);
    } else if s.procs[p].pc.i >= |s.procs| {
      PrepareInv(s, p);
    } else {
      var t := ScanStep(s, p);
      assert ProcOk(s, p);
      PassProgress(s, p);
      HolderInv(s, t, p);
    }
  }

  /** The scan passes a slot that is not a zombie child. */
  lemma PassProgress(s: State, p: nat)
    requires p < |s.procs| && s.procs[p].pc.Scan? && s.procs[p].pc.i < |s.procs| && !AtZombie(s, p) && Progress(s, p)
    ensures Progress(ScanStep(s, p), p)
  {
    var t, i := ScanStep(s, p), s.procs[p].pc.i;
    assert forall d: nat, q: nat :: ChildOf(t, d, q) == ChildOf(s, d, q);
    if s.procs[p].pc.kids {
      var c: nat :| c < i && ChildOf(s, c, p);
      assert c < i + 1 && ChildOf(t, c, p);
    } else if ChildOf(s, i, p) {
      assert ChildOf(t, i, p);
    }
  }

  lemma GiveToInitShape(s: State, p: nat)
    requires Inv(s) && p < |s.procs| && s.procs[p].pc.Reparent? && ChildOf(s, s.procs[p].pc.i, p)
    ensures Shape(ExitStep(s, p))
  {
    hide Told, Progress;
    var t := ExitStep(s, p);
    assert ProcOk(s, p) && ProcOk(s, s.procs[p].pc.i) && ProcOk(s, INIT);
    forall k | 0 <= k < |t.procs| ensures ProcOk(t, k) {
      assert ProcOk(s, k);
    }
  }

  lemma GiveToInitInv(s: State, p: nat)
    requires Inv(s) && p < |s.procs| && s.procs[p].pc.Reparent? && ChildOf(s, s.procs[p].pc.i, p)
    ensures Inv(ExitStep(s, p))
  {
    GiveToInitShape(s, p);
    var t := ExitStep(s, p);
    var i := s.procs[p].pc.i;
    assert ProcOk(s, p) && ProcOk(s, i);
    hide Shape, ProcOk;
    assert forall d: nat, q: nat :: d != i ==> ChildOf(t, d, q) == ChildOf(s, d, q);
  }

  lemma ReparentInv(s: State, p: nat)
    requires Inv(s) && p < |s.procs| && s.procs[p].pc.Reparent?
    ensures Inv(ExitStep(s, p))
  {
    if ChildOf(s, s.procs[p].pc.i, p) {
      GiveToInitInv(s, p);
    } else {
      var t := ExitStep(s, p);
      assert ProcOk(s, p);
      assert forall d: nat, q: nat :: ChildOf(t, d, q) == ChildOf(s, d, q);
      HolderInv(s, t, p);
    }
  }

  /** A visit of wakeup, made by the holder of wait_lock. */
  lemma VisitInv(s: State, j: nat, target: nat)
    requires Inv(s) && j < |s.procs|
    ensures var u := Visit(s, j, target);
      && Inv(u) && Local(s, u, j) && u.lock == s.lock && u.procs[j].killed == s.procs[j].killed
      && (InLock(s.procs[j].pc) ==> u.procs[j].pc == s.procs[j].pc)
      && (j == target ==> !u.procs[j].chan)
  {
    var u := Visit(s, j, target);
    assert ProcOk(s, j);
    OutsideInv(s, u, j);
  }

  lemma AdoptInv(s: State, p: nat)
    requires Inv(s) && p < |s.procs| && s.procs[p].pc.Adopt?
    ensures Inv(ExitStep(s, p))
  {
    hide Told;
    var u := s;
    var j := s.procs[p].pc.j;
    if j < |s.procs| {
      VisitInv(s, j, INIT);
      u := Visit(s, j, INIT);
    }
    var t := ExitStep(s, p);
    assert ProcOk(u, p);
    assert forall d: nat, q: nat :: ChildOf(t, d, q) == ChildOf(u, d, q);
    HolderInv(u, t, p);
  }

  lemma NotifyInv(s: State, p: nat)
    requires Inv(s) && p < |s.procs| && s.procs[p].pc.Notify?
    ensures Inv(ExitStep(s, p))
  {
    assert ProcOk(s, p);
    hide Told;
    var u := s;
    var j := s.procs[p].pc.j;
    if j < |s.procs| {
      VisitInv(s, j, s.procs[p].parent.value);
      u := Visit(s, j, s.procs[p].parent.value);
    }
    var t := ExitStep(s, p);
    assert ProcOk(u, p);
    assert forall d: nat, q: nat :: ChildOf(t, d, q) == ChildOf(u, d, q);
    HolderInv(u, t, p);
  }

  lemma DieInv(s: State, p: nat)
    requires Inv(s) && p < |s.procs| && s.procs[p].pc.Dying?
    ensures Inv(ExitStep(s, p))
  {
    var t := ExitStep(s, p);
    assert ProcOk(s, p);
    assert forall d: nat, q: nat :: ChildOf(t, d, q) == ChildOf(s, d, q);
    forall k | 0 <= k < |t.procs| ensures ProcOk(t, k) {
      assert ProcOk(s, k) && !ChildOf(s, k, p);
    }
  }

  lemma SectionInv(s: State, p: nat)
    requires Inv(s) && Enabled(s, Run(p))
    ensures Inv(Section(s, p))
  {
    match s.procs[p].pc
    case Starting(_) => StartInv(s, p);
    case WantWait => EnterInv(s, p);
    case WantExit => EnterInv(s, p);
    case Scan(_, _) => ScanInv(s, p);
    case Reparent(_) => ReparentInv(s, p);
    case Adopt(_, _) => AdoptInv(s, p);
    case Notify(_) => NotifyInv(s, p);
    case Dying => DieInv(s, p);
    case Prepared =>
      assert ProcOk(s, p);
      HolderInv(s, Section(s, p), p);
    case Drifting =>
      assert ProcOk(s, p);
      OutsideInv(s, Section(s, p), p);
  }

  /** Every step of every interleaving keeps the invariant. */
  lemma StepInv(s: State, e: Event)
    requires Inv(s) && Enabled(s, e)
    ensures Inv(Step(s, e))
  {
    hide Told, Progress;
    match e
    case Run(p) => SectionInv(s, p);
    case Fork(p, c) => ForkInv(s, p, c);
    case CopyFails(p) =>
      assert ProcOk(s, p);
      HolderInv(s, Step(s, e), p);
    case _ =>
      assert ProcOk(s, e.p);
      OutsideInv(s, Step(s, e), e.p);
  }

  /** userinit: one process, everything else unused. */
  function Boot(n: nat): State
    requires INIT < n
  {
    State(seq(n, i => Free())[INIT := Proc(Running, Alive, None, false, false, false)], None)
  }

  lemma BootInv(n: nat)
    requires INIT < n
    ensures Inv(Boot(n))
  {
    var s := Boot(n);
    assert forall i :: 0 <= i < n ==> s.procs[i].parent.None? && !s.procs[i].chan && !InLock(s.procs[i].pc);
    forall i | 0 <= i < |s.procs| ensures ProcOk(s, i) { }
  }

  ghost predicate IsRun(s: State, es: seq<Event>)
    decreases |es|
  {
    es != [] ==> Enabled(s, es[0]) && IsRun(Step(s, es[0]), es[1..])
  }

  ghost function Exec(s: State, es: seq<Event>): State
    requires IsRun(s, es)
    decreases |es|
  {
    if es == [] then s else Exec(Step(s, es[0]), es[1..])
  }

  lemma {:induction false} RunInv(s: State, es: seq<Event>)
    requires Inv(s) && IsRun(s, es)
    ensures Inv(Exec(s, es))
    decreases |es|
  {
    if es != [] {
      StepInv(s, es[0]);
      RunInv(Step(s, es[0]), es[1..]);
    }
  }

  /**
   In every run from boot: a process asleep in kwait has seen no wakeup since
   it registered; every zombie has a live parent; and outside wait_lock no
   registered process, asleep or not, has a zombie child.
   */
  lemma NoZombieIsMissed(n: nat, es: seq<Event>)
    requires INIT < n && IsRun(Boot(n), es)
    ensures var s := Exec(Boot(n), es);
      && (forall p: nat :: p < |s.procs| && s.procs[p].pc.Asleep? ==> s.procs[p].chan && !s.procs[p].missed)
      && (forall c: nat :: c < |s.procs| && s.procs[c].life.Zombie? ==>
            s.procs[c].parent.Some? && s.procs[c].parent.value < |s.procs|
              && s.procs[s.procs[c].parent.value].life.Alive?)
      && (s.lock.None? ==> forall c: nat, q: nat :: ChildOf(s, c, q) && q < |s.procs| && s.procs[q].chan ==>
        !s.procs[c].life.Zombie?)
  {
    BootInv(n);
    RunInv(Boot(n), es);
    var s := Exec(Boot(n), es);
    forall c: nat | c < |s.procs| && s.procs[c].life.Zombie?
      ensures s.procs[c].parent.Some? && s.procs[c].parent.value < |s.procs|
        && s.procs[s.procs[c].parent.value].life.Alive?
    {
      assert ProcOk(s, c);
    }
    forall p: nat | p < |s.procs| && s.procs[p].pc.Asleep? ensures s.procs[p].chan && !s.procs[p].missed {
      assert ProcOk(s, p);
    }
  }
}
