/** What a call of kwait comes to, and the runs in which it sleeps and is woken. */
module WaitRuns {
  import opened Wrappers
  import opened WaitExit

  predicate InWait(pc: Pc) { pc.WantWait? || pc.Scan? || pc.Prepared? || pc.Drifting? || pc.Asleep? }

  ghost predicate Childless(s: State, p: nat) { forall c: nat :: !ChildOf(s, c, p) }

  ghost predicate ZombieChild(s: State, c: nat, p: nat) { ChildOf(s, c, p) && s.procs[c].life.Zombie? }

  predicate Unoccupied(q: Proc) { q.pc.Gone? && q.life.Unused? && q.parent.None? }

  /** From s to t only p's program counter, the lock and perhaps slot c change. */
  ghost predicate OnlyMoves(s: State, t: State, p: nat, c: nat) {
    && |t.procs| == |s.procs| && p < |s.procs| && t.procs[p] == s.procs[p].(pc := t.procs[p].pc)
    && forall i :: 0 <= i < |s.procs| && i != p && i != c ==> t.procs[i] == s.procs[i]
  }

  /**
   kwait returns in three ways: with a child, which was a zombie of the caller's
   and is now freed, alone; without, when the caller has no child at all or was
   killed; or with an error of the copy, leaving the zombie as it was.
   */
  lemma LeavesWait(s: State, e: Event, p: nat)
    requires Inv(s) && Enabled(s, e) && p < |s.procs| && InWait(s.procs[p].pc)
    requires p < |Step(s, e).procs| && !InWait(Step(s, e).procs[p].pc)
    ensures Step(s, e).procs[p].pc.Running? && s.lock == Some(p) && Step(s, e).lock.None?
    ensures e == Run(p) || e == CopyFails(p)
    ensures e == CopyFails(p) ==> OnlyMoves(s, Step(s, e), p, p) && exists c: nat :: ZombieChild(s, c, p)
    ensures e == Run(p) ==>
      || (OnlyMoves(s, Step(s, e), p, p) && (Childless(s, p) || s.procs[p].killed))
      || exists c: nat :: c != p && Reaped(s, Step(s, e), p, c)
  {
    assert ProcOk(s, p);
    if e.p != p {
      OtherKeepsWait(s, e, p);
    } else {
      assert e == Run(p) || e == CopyFails(p) by {
        assert !s.procs[p].pc.Running?;
      }
      if AtZombie(s, p) {
        AtZombieReaped(s, p);
        if e == Run(p) {
          assert Reaped(s, Step(s, e), p, s.procs[p].pc.i);
        }
      } else {
        EndOfScan(s, p);
      }
    }
  }

  /** p has freed its zombie child c. */
  ghost predicate Reaped(s: State, t: State, p: nat, c: nat) {
    ZombieChild(s, c, p) && OnlyMoves(s, t, p, c) && Unoccupied(t.procs[c])
  }

  lemma AtZombieReaped(s: State, p: nat)
    requires Inv(s) && AtZombie(s, p)
    ensures var c := s.procs[p].pc.i; c != p && ZombieChild(s, c, p) && Reaped(s, Step(s, Run(p)), p, c)
    ensures s.lock == Some(p)
  {
    assert ProcOk(s, p) && ProcOk(s, s.procs[p].pc.i);
  }

  /** No one else's step takes a process out of kwait. */
  lemma OtherKeepsWait(s: State, e: Event, p: nat)
    requires Inv(s) && Enabled(s, e) && p < |s.procs| && InWait(s.procs[p].pc) && e.p != p
    ensures p < |Step(s, e).procs| && InWait(Step(s, e).procs[p].pc)
  {
    hide Told, Progress, Shape, ScanStep, ExitStep;
    ProcAt(s, p);
    ProcAt(s, e.p);
    if e.Run? {
      if s.procs[e.p].pc.Scan? {
        ScanKeepsOther(s, e.p, p);
      } else {
        ExitKeepsOther(s, e.p, p);
      }
    }
  }

  lemma ScanKeepsOther(s: State, p: nat, q: nat)
    requires p < |s.procs| && s.procs[p].pc.Scan? && q < |s.procs| && q != p && !s.procs[q].life.Zombie?
    ensures q < |ScanStep(s, p).procs| && ScanStep(s, p).procs[q] == s.procs[q]
  {
  }

  lemma ExitKeepsOther(s: State, p: nat, q: nat)
    requires p < |s.procs| && q < |s.procs| && q != p
    ensures var t := ExitStep(s, p);
      q < |t.procs| && (t.procs[q].pc == s.procs[q].pc || (s.procs[q].pc.Asleep? && t.procs[q].pc.WantWait?))
  {
  }

  /** At the end of a scan, a caller with children that was not killed is registered, and none of them is a zombie. */
  lemma EndOfScan(s: State, p: nat)
    requires Inv(s) && p < |s.procs| && s.procs[p].pc.Scan? && !AtZombie(s, p)
    ensures Enabled(s, Run(p)) && s.lock == Some(p)
    ensures s.procs[p].pc.i < |s.procs| ==> Step(s, Run(p)).procs[p].pc.Scan?
    ensures s.procs[p].pc.i >= |s.procs| ==>
      var t := Step(s, Run(p));
      && (forall c: nat :: !ZombieChild(s, c, p)) && OnlyRegisters(s, t, p)
      && (if Childless(s, p) || s.procs[p].killed then t.procs[p].pc.Running? && OnlyMoves(s, t, p, p)
          else t.procs[p].pc.Prepared? && t.procs[p].chan && t.lock == Some(p))
  {
    assert Progress(s, p);
  }

  ghost predicate OnlyRegisters(s: State, t: State, p: nat) {
    |t.procs| == |s.procs| && forall i :: 0 <= i < |s.procs| && i != p ==> t.procs[i] == s.procs[i]
  }

  /**
   A process in use changes its parent only for init, when the parent exits, or
   for none, when the parent frees it.
   */
  lemma ParentChanges(s: State, e: Event, c: nat)
    requires Inv(s) && Enabled(s, e) && c < |s.procs| && s.procs[c].parent.Some?
    requires c < |Step(s, e).procs| && Step(s, e).procs[c].parent != s.procs[c].parent
    ensures e == Run(s.procs[c].parent.value) && s.lock == s.procs[c].parent
    ensures
      || (Step(s, e).procs[c] == s.procs[c].(parent := Some(INIT)) && Exiting(s.procs[e.p].pc))
      || (Unoccupied(Step(s, e).procs[c]) && s.procs[c].life.Zombie? && s.procs[e.p].pc.Scan?)
  {
    hide Told, Progress, Shape, ScanStep, ExitStep;
    ProcAt(s, c);
    ProcAt(s, e.p);
    if e.Run? && s.procs[e.p].pc.Scan? {
      ScanParent(s, e.p, c);
    } else if e.Run? {
      ExitParent(s, e.p, c);
    }
  }

  lemma ScanParent(s: State, p: nat, c: nat)
    requires Inv(s) && p < |s.procs| && s.procs[p].pc.Scan? && c < |s.procs| && s.procs[c].parent.Some?
    ensures var t := ScanStep(s, p);
      c < |t.procs| && s.lock == Some(p) &&
      (t.procs[c].parent == s.procs[c].parent
       || (s.procs[c].parent == Some(p) && Unoccupied(t.procs[c]) && s.procs[c].life.Zombie?))
  {
    hide Told, Progress, Shape;
    ProcAt(s, p);
  }

  lemma ExitParent(s: State, p: nat, c: nat)
    requires Inv(s) && p < |s.procs| && c < |s.procs| && s.procs[c].parent.Some?
    ensures var t := ExitStep(s, p);
      c < |t.procs| &&
      (t.procs[c].parent == s.procs[c].parent
       || (s.procs[c].parent == Some(p) && s.lock == Some(p) && t.procs[c] == s.procs[c].(parent := Some(INIT))
           && Exiting(s.procs[p].pc)))
  {
    hide Told, Progress, Shape;
    ProcAt(s, c);
  }

  /** A process becomes a zombie only at the end of its own exit, with no children left to it. */
  lemma BecomesZombie(s: State, e: Event, p: nat)
    requires Inv(s) && Enabled(s, e) && p < |s.procs| && !s.procs[p].life.Zombie?
    requires p < |Step(s, e).procs| && Step(s, e).procs[p].life.Zombie?
    ensures e == Run(p) && s.procs[p].life.Alive? && Exiting(s.procs[p].pc) && Childless(s, p) && Step(s, e).lock.None?
  {
    hide Told, Shape, Progress, ScanStep, ExitStep;
    ProcAt(s, p);
    ProcAt(s, e.p);
    if e.Run? {
      if s.procs[e.p].pc.Scan? {
        ScanLife(s, e.p, p);
      } else {
        ExitLife(s, e.p, p);
      }
    }
  }

  lemma ScanLife(s: State, p: nat, c: nat)
    requires p < |s.procs| && s.procs[p].pc.Scan? && c < |s.procs|
    ensures c < |ScanStep(s, p).procs|
    ensures ScanStep(s, p).procs[c].life == s.procs[c].life || ScanStep(s, p).procs[c].life.Unused?
  {
  }

  lemma ExitLife(s: State, p: nat, c: nat)
    requires Inv(s) && p < |s.procs| && c < |s.procs|
    ensures var t := ExitStep(s, p);
      c < |t.procs| &&
      (t.procs[c].life == s.procs[c].life || (c == p && s.procs[p].pc.Dying? && Childless(s, p) && t.lock.None?))
  {
    hide Told, Shape;
  }

  lemma ProcAt(s: State, i: nat)
    requires Inv(s) && i < |s.procs|
    ensures ProcOk(s, i)
  {
  }

  // Runs.

  ghost predicate Leads(s: State, es: seq<Event>, t: State) { IsRun(s, es) && Exec(s, es) == t }

  lemma LeadsNowhere(s: State)
    ensures Leads(s, [], s)
  {
  }

  lemma LeadsFirst(s: State, e: Event, es: seq<Event>, t: State)
    requires Enabled(s, e) && Leads(Step(s, e), es, t)
    ensures Leads(s, [e] + es, t)
  {
    hide Step, Enabled;
    assert ([e] + es)[1..] == es;
  }

  lemma LeadsOne(s: State, e: Event)
    requires Enabled(s, e)
    ensures Leads(s, [e], Step(s, e))
  {
    hide Step, Enabled;
    LeadsNowhere(Step(s, e));
    LeadsFirst(s, e, [], Step(s, e));
    assert [e] + [] == [e];
  }

  lemma {:induction false} LeadsOn(s: State, es: seq<Event>, t: State, fs: seq<Event>, u: State)
    requires Leads(s, es, t) && Leads(t, fs, u)
    ensures Leads(s, es + fs, u)
    decreases |es|
  {
    hide Step, Enabled;
    if es == [] {
      assert es + fs == fs;
    } else {
      LeadsOn(Step(s, es[0]), es[1..], t, fs, u);
      assert (es + fs)[1..] == es[1..] + fs;
    }
  }

  /** One more event. */
  lemma LeadsNext(s: State, es: seq<Event>, t: State, e: Event)
    requires Leads(s, es, t) && Enabled(t, e)
    ensures Leads(s, es + [e], Step(t, e))
  {
    hide Step, Enabled, Leads;
    LeadsOne(t, e);
    LeadsOn(s, es, t, [e], Step(t, e));
  }

  ghost predicate NoZombies(s: State, p: nat, i: nat, n: nat) {
    forall c: nat :: i <= c < n ==> !ZombieChild(s, c, p)
  }

  ghost predicate KidIn(s: State, p: nat, i: nat, n: nat) {
    exists c: nat :: i <= c < n && ChildOf(s, c, p)
  }

  /** kwait's scan passes slots i to n - 1. */
  lemma {:induction false} ScanRun(s: State, p: nat, i: nat, kids: bool, n: nat) returns (es: seq<Event>)
    requires p < |s.procs| && s.procs[p].pc == Scan(i, kids) && i <= n <= |s.procs| && NoZombies(s, p, i, n)
    ensures Leads(s, es, Move(s, p, Scan(n, kids || KidIn(s, p, i, n))))
    decreases n - i
  {
    if i == n {
      es := [];
      assert s.procs[p := s.procs[p]] == s.procs;
    } else {
      var t := Step(s, Run(p));
      assert !ZombieChild(s, i, p);
      assert t == Move(s, p, Scan(i + 1, kids || ChildOf(s, i, p)));
      SameChildren(s, t, p);
      var fs := ScanRun(t, p, i + 1, kids || ChildOf(s, i, p), n);
      KidsSplit(s, p, i, n);
      LeadsFirst(s, Run(p), fs, Move(s, p, Scan(n, kids || KidIn(s, p, i, n))));
      es := [Run(p)] + fs;
    }
  }

  lemma KidsSplit(s: State, p: nat, i: nat, n: nat)
    requires i < n
    ensures KidIn(s, p, i, n) <==> ChildOf(s, i, p) || KidIn(s, p, i + 1, n)
  {
  }

  /** A move of p changes neither parents nor zombies. */
  lemma SameChildren(s: State, t: State, p: nat)
    requires p < |s.procs| == |t.procs| && t == Move(s, p, t.procs[p].pc)
    ensures forall c: nat, q: nat :: ChildOf(t, c, q) == ChildOf(s, c, q)
    ensures forall c: nat, q: nat :: ZombieChild(t, c, q) == ZombieChild(s, c, q)
    ensures forall q: nat, i: nat, n: nat :: KidIn(t, q, i, n) == KidIn(s, q, i, n)
  {
    assert forall c: nat, q: nat :: ChildOf(t, c, q) == ChildOf(s, c, q);
    forall q: nat, i: nat, n: nat ensures KidIn(t, q, i, n) == KidIn(s, q, i, n) {
      if KidIn(s, q, i, n) {
        var c: nat :| i <= c < n && ChildOf(s, c, q);
        assert ChildOf(t, c, q);
      }
      if KidIn(t, q, i, n) {
        var c: nat :| i <= c < n && ChildOf(t, c, q);
        assert ChildOf(s, c, q);
      }
    }
  }

  /** reparent passes slots i to the end when the caller has no children. */
  lemma {:induction false} ReparentRun(s: State, p: nat, i: nat) returns (es: seq<Event>)
    requires p < |s.procs| && s.procs[p].pc == Reparent(i) && i <= |s.procs| && Childless(s, p)
    ensures Leads(s, es, Move(s, p, Reparent(|s.procs|)))
    decreases |s.procs| - i
  {
    if i == |s.procs| {
      es := [];
      assert s.procs[p := s.procs[p]] == s.procs;
    } else {
      var t := Step(s, Run(p));
      assert !ChildOf(s, i, p);
      assert t == Move(s, p, Reparent(i + 1));
      SameChildren(s, t, p);
      var fs := ReparentRun(t, p, i + 1);
      LeadsFirst(s, Run(p), fs, Move(s, p, Reparent(|s.procs|)));
      es := [Run(p)] + fs;
    }
  }

  /** wakeup passes slots j to n - 1, the parent's not among them. */
  lemma {:induction false} NotifyRun(s: State, p: nat, j: nat, n: nat, q: nat) returns (es: seq<Event>)
    requires p < |s.procs| && s.procs[p].pc == Notify(j) && s.procs[p].parent == Some(q) && j <= n <= |s.procs|
    requires !(j <= q < n)
    ensures Leads(s, es, Move(s, p, Notify(n)))
    decreases n - j
  {
    if j == n {
      es := [];
      assert s.procs[p := s.procs[p]] == s.procs;
    } else {
      var t := Step(s, Run(p));
      assert t == Move(s, p, Notify(j + 1));
      var fs := NotifyRun(t, p, j + 1, n, q);
      LeadsFirst(s, Run(p), fs, Move(s, p, Notify(n)));
      es := [Run(p)] + fs;
    }
  }

  /** s with processes p and c and the lock changed. */
  function With(s: State, p: nat, q: Proc, c: nat, d: Proc, lock: Option<nat>): State
    requires p < |s.procs| && c < |s.procs|
  {
    State(s.procs[p := q][c := d], lock)
  }

  lemma WithMove(s: State, p: nat, q: Proc, c: nat, d: Proc, lock: Option<nat>, pc: Pc)
    requires p < |s.procs| && c < |s.procs| && p != c
    ensures Move(With(s, p, q, c, d, lock), c, pc) == With(s, p, q, c, d.(pc := pc), lock)
    ensures Move(With(s, p, q, c, d, lock), p, pc) == With(s, p, q.(pc := pc), c, d, lock)
  {
  }

  /** A process asleep in kwait and a child of its that has no children, with wait_lock free. */
  ghost predicate Sleeper(s: State, p: nat, c: nat) {
    && Inv(s) && s.lock.None? && p < |s.procs| && s.procs[p].pc.Asleep? && ChildOf(s, c, p) && c != INIT
    && s.procs[c].pc.Running? && Childless(s, c)
  }

  lemma SleeperFacts(s: State, p: nat, c: nat)
    requires Sleeper(s, p, c)
    ensures p != c && s.procs[p].chan && s.procs[p].life.Alive? && (forall x: nat :: !ZombieChild(s, x, p))
  {
    ProcAt(s, p);
    ProcAt(s, c);
  }

  /** The child enters kexit and gives its children away, having none. */
  lemma EntersExit(s: State, p: nat, c: nat) returns (es: seq<Event>)
    requires Sleeper(s, p, c)
    ensures p != c && Leads(s, es, With(s, p, s.procs[p], c, s.procs[c].(pc := Notify(0)), Some(c)))
  {
    SleeperFacts(s, p, c);
    var n, q, d := |s.procs|, s.procs[p], s.procs[c];
    var s1 := With(s, p, q, c, d.(pc := WantExit), None);
    var s2 := With(s, p, q, c, d.(pc := Reparent(0)), Some(c));
    assert Step(s, CallExit(c)) == s1;
    assert Step(s1, Run(c)) == s2;
    LeadsOne(s, CallExit(c));
    LeadsNext(s, [CallExit(c)], s1, Run(c));
    forall x: nat ensures !ChildOf(s2, x, c) {
      assert !ChildOf(s, x, c);
    }
    var fs := ReparentRun(s2, c, 0);
    WithMove(s, p, q, c, d.(pc := Reparent(0)), Some(c), Reparent(n));
    var s3 := With(s, p, q, c, d.(pc := Reparent(n)), Some(c));
    es := [CallExit(c)] + [Run(c)];
    LeadsOn(s, es, s2, fs, s3);
    es := es + fs;
    assert Step(s3, Run(c)) == With(s, p, q, c, d.(pc := Notify(0)), Some(c));
    LeadsNext(s, es, s3, Run(c));
    es := es + [Run(c)];
  }

  function Woken(q: Proc): Proc { q.(chan := false, missed := true, pc := WantWait) }

  /** Its wakeup reaches the parent, */
  lemma Wakes(s: State, p: nat, c: nat) returns (es: seq<Event>)
    requires Sleeper(s, p, c)
    ensures p != c && Leads(With(s, p, s.procs[p], c, s.procs[c].(pc := Notify(0)), Some(c)), es,
                            With(s, p, Woken(s.procs[p]), c, s.procs[c].(pc := Notify(p + 1)), Some(c)))
  {
    SleeperFacts(s, p, c);
    hide Inv;
    var q, d := s.procs[p], s.procs[c];
    var s0 := With(s, p, q, c, d.(pc := Notify(0)), Some(c));
    es := NotifyRun(s0, c, 0, p, p);
    WithMove(s, p, q, c, d.(pc := Notify(0)), Some(c), Notify(p));
    var s1 := With(s, p, q, c, d.(pc := Notify(p)), Some(c));
    assert Step(s1, Run(c)) == With(s, p, Woken(q), c, d.(pc := Notify(p + 1)), Some(c));
    LeadsNext(s0, es, s1, Run(c));
    es := es + [Run(c)];
  }

  /** and it becomes a zombie. */
  lemma Dies(s: State, p: nat, c: nat) returns (es: seq<Event>)
    requires Sleeper(s, p, c)
    ensures p != c && Leads(With(s, p, Woken(s.procs[p]), c, s.procs[c].(pc := Notify(p + 1)), Some(c)), es,
                            With(s, p, Woken(s.procs[p]), c, s.procs[c].(pc := Gone, life := Zombie), None))
  {
    SleeperFacts(s, p, c);
    hide Inv;
    var n, w, d := |s.procs|, Woken(s.procs[p]), s.procs[c];
    var s0 := With(s, p, w, c, d.(pc := Notify(p + 1)), Some(c));
    es := NotifyRun(s0, c, p + 1, n, p);
    WithMove(s, p, w, c, d.(pc := Notify(p + 1)), Some(c), Notify(n));
    var s1 := With(s, p, w, c, d.(pc := Notify(n)), Some(c));
    var s2 := With(s, p, w, c, d.(pc := Dying), Some(c));
    assert Step(s1, Run(c)) == s2;
    LeadsNext(s0, es, s1, Run(c));
    es := es + [Run(c)];
    assert Step(s2, Run(c)) == With(s, p, w, c, d.(pc := Gone, life := Zombie), None);
    LeadsNext(s0, es, s2, Run(c));
    es := es + [Run(c)];
  }

  /** The parent scans again, finds it and returns. */
  lemma FindsZombie(s: State, p: nat, c: nat) returns (es: seq<Event>)
    requires Sleeper(s, p, c)
    ensures p != c && Leads(With(s, p, Woken(s.procs[p]), c, s.procs[c].(pc := Gone, life := Zombie), None), es,
                            With(s, p, Woken(s.procs[p]).(pc := Running), c, Free(), None))
  {
    SleeperFacts(s, p, c);
    var w, z := Woken(s.procs[p]), s.procs[c].(pc := Gone, life := Zombie);
    var s0 := With(s, p, w, c, z, None);
    var s1 := With(s, p, w.(pc := Scan(0, false)), c, z, Some(p));
    assert Step(s0, Run(p)) == s1;
    LeadsOne(s0, Run(p));
    forall x: nat | x < c ensures !ZombieChild(s1, x, p) {
      assert !ZombieChild(s, x, p);
    }
    var fs := ScanRun(s1, p, 0, false, c);
    var kids := KidIn(s1, p, 0, c);
    WithMove(s, p, w.(pc := Scan(0, false)), c, z, Some(p), Scan(c, false || kids));
    var s2 := With(s, p, w.(pc := Scan(c, kids)), c, z, Some(p));
    LeadsOn(s0, [Run(p)], s1, fs, s2);
    es := [Run(p)] + fs;
    assert Step(s2, Run(p)) == With(s, p, w.(pc := Running), c, Free(), None);
    LeadsNext(s0, es, s2, Run(p));
    es := es + [Run(p)];
  }

  /** Whenever a process is asleep in kwait, the exit of a child can get it out, with that child freed. */
  lemma ExitEndsWait(s: State, p: nat, c: nat) returns (es: seq<Event>)
    requires Sleeper(s, p, c)
    ensures IsRun(s, es) && p < |Exec(s, es).procs| && c < |Exec(s, es).procs|
    ensures Exec(s, es).procs[p].pc.Running? && Unoccupied(Exec(s, es).procs[c]) && Exec(s, es).lock.None?
  {
    SleeperFacts(s, p, c);
    var a := EntersExit(s, p, c);
    var b := Wakes(s, p, c);
    var d := Dies(s, p, c);
    var f := FindsZombie(s, p, c);
    hide Sleeper;
    var w, z := Woken(s.procs[p]), s.procs[c].(pc := Gone, life := Zombie);
    var s1 := With(s, p, s.procs[p], c, s.procs[c].(pc := Notify(0)), Some(c));
    var s2 := With(s, p, w, c, s.procs[c].(pc := Notify(p + 1)), Some(c));
    var s3 := With(s, p, w, c, z, None);
    LeadsOn(s, a, s1, b, s2);
    LeadsOn(s, a + b, s2, d, s3);
    LeadsOn(s, a + b + d, s3, f, With(s, p, w.(pc := Running), c, Free(), None));
    es := a + b + d + f;
  }

  const PARENT := Proc(Running, Alive, None, false, false, false)
  const CHILD := Proc(Running, Alive, Some(INIT), false, false, false)

  /** init forks, and calls kwait. */
  lemma Forks(n: nat) returns (es: seq<Event>)
    requires n >= 2
    ensures Leads(Boot(n), es, With(Boot(n), 0, PARENT.(pc := Scan(0, false)), 1, CHILD, Some(0)))
  {
    var b := Boot(n);
    var s1 := With(b, 0, PARENT.(pc := Starting(1)), 1, Proc(Gone, Used, Some(0), false, false, false), None);
    var s2 := With(b, 0, PARENT, 1, CHILD, None);
    var s3 := With(b, 0, PARENT.(pc := WantWait), 1, CHILD, None);
    assert Step(b, Fork(0, 1)) == s1;
    assert Step(s1, Run(0)) == s2;
    assert Step(s2, CallWait(0)) == s3;
    assert Step(s3, Run(0)) == With(b, 0, PARENT.(pc := Scan(0, false)), 1, CHILD, Some(0));
    LeadsOne(b, Fork(0, 1));
    LeadsNext(b, [Fork(0, 1)], s1, Run(0));
    LeadsNext(b, [Fork(0, 1)] + [Run(0)], s2, CallWait(0));
    LeadsNext(b, [Fork(0, 1)] + [Run(0)] + [CallWait(0)], s3, Run(0));
    es := [Fork(0, 1)] + [Run(0)] + [CallWait(0)] + [Run(0)];
  }

  /** It finds a child but no zombie, and goes to sleep. */
  lemma FallsAsleep(n: nat) returns (es: seq<Event>)
    requires n >= 2
    ensures Leads(With(Boot(n), 0, PARENT.(pc := Scan(0, false)), 1, CHILD, Some(0)), es,
                  With(Boot(n), 0, PARENT.(pc := Asleep, chan := true), 1, CHILD, None))
  {
    var b := Boot(n);
    var s0 := With(b, 0, PARENT.(pc := Scan(0, false)), 1, CHILD, Some(0));
    es := ScanRun(s0, 0, 0, false, n);
    assert ChildOf(s0, 1, 0);
    WithMove(b, 0, PARENT.(pc := Scan(0, false)), 1, CHILD, Some(0), Scan(n, true));
    var s1 := With(b, 0, PARENT.(pc := Scan(n, true)), 1, CHILD, Some(0));
    var s2 := With(b, 0, PARENT.(pc := Prepared, chan := true), 1, CHILD, Some(0));
    var s3 := With(b, 0, PARENT.(pc := Drifting, chan := true), 1, CHILD, None);
    assert Step(s1, Run(0)) == s2;
    assert Step(s2, Run(0)) == s3;
    assert Step(s3, Run(0)) == With(b, 0, PARENT.(pc := Asleep, chan := true), 1, CHILD, None);
    LeadsNext(s0, es, s1, Run(0));
    LeadsNext(s0, es + [Run(0)], s2, Run(0));
    LeadsNext(s0, es + [Run(0)] + [Run(0)], s3, Run(0));
    es := es + [Run(0)] + [Run(0)] + [Run(0)];
  }

  /** From boot, a process gets to sleep in kwait, with a live child whose exit will end the sleep. */
  lemma SleepIsReached(n: nat) returns (es: seq<Event>)
    requires n >= 2
    ensures IsRun(Boot(n), es) && Sleeper(Exec(Boot(n), es), 0, 1)
  {
    var a := Forks(n);
    var d := FallsAsleep(n);
    var b := Boot(n);
    var t := With(b, 0, PARENT.(pc := Asleep, chan := true), 1, CHILD, None);
    LeadsOn(b, a, With(b, 0, PARENT.(pc := Scan(0, false)), 1, CHILD, Some(0)), d, t);
    es := a + d;
    BootInv(n);
    RunInv(b, es);
    assert Exec(b, es) == t;
    hide Inv;
    assert forall x: nat :: !ChildOf(t, x, 1);
  }
}
