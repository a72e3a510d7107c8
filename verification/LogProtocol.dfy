/**
 begin_op, end_op, log_write and sys_sync (log.c) run by any number of
 processes.  Each step is one section under log.lock; a process that sleeps
 on &log is registered from sleep_prepare until a wakeup clears it.
 */
module LogProtocol {
  import opened Params

  datatype Pc =
    | Out                                 // outside the file system
    | Begin                               // in begin_op, about to test
    | BeginWait                           // in begin_op, gone to sleep
    | InOp(used: nat)                     // between begin_op and end_op; blocks it has added to the log
    | Committing                          // in commit(), log not yet cleared
    | Cleared                             // commit() has set lh.n to 0
    | SyncWait(target: nat, ended: nat)   // in sys_sync, waiting for commit number target
    | Dead                                // panicked

  /**
   `ended` counts the operations that have ended, `taken` those whose blocks
   were in the log when the last commit started, and `safe` those in a finished
   commit.
   */
  datatype State = State(pcs: seq<Pc>, registered: seq<bool>, n: nat, outstanding: nat, committing: bool,
                         ncommit: nat, ended: nat, taken: nat, safe: nat)

  datatype Event =
    | Enter(p: nat)                  // a system call starts
    | TryBegin(p: nat)               // one turn of begin_op's loop
    | WakeUp(p: nat)                 // sleep() returns, after a wakeup or a kill
    | LogWrite(p: nat, adds: bool)   // log_write; adds: the block is not in the log yet
    | EndOp(p: nat)
    | ClearLog(p: nat)               // commit() empties the log
    | EndCommit(p: nat)
    | StartSync(p: nat)
    | RetrySync(p: nat)

  predicate At(s: State, p: nat, pc: Pc) { p < |s.pcs| && s.pcs[p] == pc }

  predicate Enabled(s: State, e: Event) {
    |s.registered| == |s.pcs| &&
    match e
    case Enter(p) => At(s, p, Out)
    case TryBegin(p) => At(s, p, Begin)
    case WakeUp(p) => At(s, p, BeginWait)
    case LogWrite(p, _) => p < |s.pcs| && s.pcs[p].InOp?
    case EndOp(p) => p < |s.pcs| && s.pcs[p].InOp?
    case ClearLog(p) => At(s, p, Committing)
    case EndCommit(p) => At(s, p, Cleared)
    case StartSync(p) => At(s, p, Out)
    case RetrySync(p) => p < |s.pcs| && s.pcs[p].SyncWait?
  }

  function Move(s: State, p: nat, pc: Pc): State
    requires p < |s.pcs|
  {
    s.(pcs := s.pcs[p := pc])
  }

  /** wakeup(&log). */
  function WakeAll(s: State): State {
    s.(registered := seq(|s.registered|, i => false))
  }

  function Register(s: State, p: nat): State
    requires p < |s.registered|
  {
    s.(registered := s.registered[p := true])
  }

  predicate Full(s: State) {
    s.n + (s.outstanding + 1) * MAXOPBLOCKS > LOGBLOCKS
  }

  function Step(s: State, e: Event): State
    requires Enabled(s, e)
  {
    match e
    case Enter(p) => Move(s, p, Begin)
    case TryBegin(p) =>
      if s.committing || Full(s) then Move(Register(s, p), p, BeginWait)
      else Move(s.(outstanding := s.outstanding + 1), p, InOp(0))
    case WakeUp(p) => Move(s, p, Begin)
    case LogWrite(p, adds) =>
      if s.n >= LOGBLOCKS || s.outstanding < 1 then Move(s, p, Dead)
      else if adds then Move(s.(n := s.n + 1), p, InOp(s.pcs[p].used + 1))
      else s
    case EndOp(p) =>
      var t := s.(outstanding := if s.outstanding > 0 then s.outstanding - 1 else 0, ended := s.ended + 1);
      if s.committing then Move(t, p, Dead)
      else if t.outstanding == 0 then Move(t.(committing := true, taken := t.ended), p, Committing)
      else Move(WakeAll(t), p, Out)
    case ClearLog(p) => Move(s.(n := 0), p, Cleared)
    case EndCommit(p) =>
      Move(WakeAll(s.(committing := false, ncommit := s.ncommit + 1, safe := s.taken)), p, Out)
    case StartSync(p) =>
      if s.committing || s.outstanding > 0 then Move(Register(s, p), p, SyncWait(s.ncommit + 1, s.ended))
      else s
    case RetrySync(p) =>
      if s.ncommit < s.pcs[p].target then Register(s, p) else Move(s, p, Out)
  }

  /** Blocks that the operations in progress may still add. */
  function Unused(pcs: seq<Pc>): int {
    if pcs == [] then 0 else
      Unused(pcs[..|pcs| - 1]) + if pcs[|pcs| - 1].InOp? then MAXOPBLOCKS - pcs[|pcs| - 1].used else 0
  }

  function Active(pcs: seq<Pc>): nat {
    if pcs == [] then 0 else Active(pcs[..|pcs| - 1]) + if pcs[|pcs| - 1].InOp? then 1 else 0
  }

  function UnusedOf(pc: Pc): int { if pc.InOp? then MAXOPBLOCKS - pc.used else 0 }

  function ActiveOf(pc: Pc): nat { if pc.InOp? then 1 else 0 }

  lemma {:induction false} SumsAfterMove(pcs: seq<Pc>, p: nat, pc: Pc)
    requires p < |pcs|
    ensures Unused(pcs[p := pc]) == Unused(pcs) - UnusedOf(pcs[p]) + UnusedOf(pc)
    ensures Active(pcs[p := pc]) == Active(pcs) - ActiveOf(pcs[p]) + ActiveOf(pc)
  {
    var m := |pcs| - 1;
    if p < m {
      assert pcs[p := pc][..m] == pcs[..m][p := pc];
      SumsAfterMove(pcs[..m], p, pc);
    } else {
      assert pcs[p := pc][..m] == pcs[..m];
    }
  }

  lemma {:induction false} UnusedBounds(pcs: seq<Pc>, p: nat)
    requires forall i :: 0 <= i < |pcs| && pcs[i].InOp? ==> pcs[i].used <= MAXOPBLOCKS
    ensures 0 <= Unused(pcs) <= Active(pcs) * MAXOPBLOCKS
    ensures p < |pcs| ==> UnusedOf(pcs[p]) <= Unused(pcs) && ActiveOf(pcs[p]) <= Active(pcs)
  {
    if pcs != [] {
      UnusedBounds(pcs[..|pcs| - 1], p);
    }
  }

  predicate InCommit(pc: Pc) { pc.Committing? || pc.Cleared? }

  predicate Idle(s: State) { !s.committing && s.outstanding == 0 }

  /** Log space in use plus space still promised fits the log. */
  ghost predicate Reserved(s: State) {
    && s.outstanding == Active(s.pcs)
    && (forall i :: 0 <= i < |s.pcs| && s.pcs[i].InOp? ==> s.pcs[i].used <= MAXOPBLOCKS)
    && s.n + Unused(s.pcs) <= LOGBLOCKS
  }

  /** At most one process commits, and then no operation is in progress. */
  ghost predicate OneCommitter(s: State) {
    && (s.committing ==> s.outstanding == 0)
    && (s.committing <==> exists i :: 0 <= i < |s.pcs| && InCommit(s.pcs[i]))
    && (forall i, j :: 0 <= i < j < |s.pcs| && InCommit(s.pcs[i]) ==> !InCommit(s.pcs[j]))
    && (forall i :: 0 <= i < |s.pcs| && s.pcs[i].Cleared? ==> s.n == 0)
  }

  /** A commit covers everything ended; an idle log is empty, everything ended safe, and no one registered. */
  ghost predicate IdleOk(s: State) {
    && s.safe <= s.ended
    && (s.committing ==> s.taken == s.ended)
    && (Idle(s) ==> s.n == 0 && s.safe == s.ended && forall i :: 0 <= i < |s.registered| ==> !s.registered[i])
  }

  ghost predicate SyncsOk(s: State) {
    forall i :: 0 <= i < |s.pcs| && s.pcs[i].SyncWait? ==>
      && s.pcs[i].target <= s.ncommit + 1 && s.pcs[i].ended <= s.ended
      && (if s.ncommit < s.pcs[i].target then !Idle(s) else s.pcs[i].ended <= s.safe)
  }

  /** Whoever is registered in begin_op has something to wait for. */
  ghost predicate BeginsOk(s: State) {
    forall i :: 0 <= i < |s.pcs| && i < |s.registered| && s.pcs[i].BeginWait? && s.registered[i] ==>
      s.committing || Full(s)
  }

  ghost predicate NoPanic(s: State) {
    forall i :: 0 <= i < |s.pcs| ==> !s.pcs[i].Dead?
  }

  ghost predicate Inv(s: State) {
    |s.registered| == |s.pcs| && Reserved(s) && OneCommitter(s) && IdleOk(s) && SyncsOk(s) && BeginsOk(s)
    && NoPanic(s)
  }

  /** An operation calls log_write only while it has budget left. */
  predicate HasBudget(s: State, e: Event) {
    e.LogWrite? && e.p < |s.pcs| && s.pcs[e.p].InOp? ==> s.pcs[e.p].used < MAXOPBLOCKS
  }

  function Init(nproc: nat): State {
    State(seq(nproc, i => Out), seq(nproc, i => false), 0, 0, false, 0, 0, 0, 0)
  }

  /** With budget left, log_write finds room. */
  lemma BudgetMeansRoom(s: State, p: nat)
    requires Inv(s) && p < |s.pcs| && s.pcs[p].InOp? && s.pcs[p].used < MAXOPBLOCKS
    ensures s.n < LOGBLOCKS && s.outstanding >= 1 && !s.committing
  {
    UnusedBounds(s.pcs, p);
  }

  lemma BeginInv(s: State, p: nat)
    requires Inv(s) && At(s, p, Begin)
    ensures Inv(Step(s, TryBegin(p)))
  {
    var t := Step(s, TryBegin(p));
    SumsAfterMove(s.pcs, p, t.pcs[p]);
    UnusedBounds(s.pcs, p);
    CommitterKept(s, t, p);
  }

  /** A move of a process that is not the committer keeps the committer. */
  lemma CommitterKept(s: State, t: State, p: nat)
    requires OneCommitter(s) && p < |s.pcs| && |t.pcs| == |s.pcs| && !InCommit(s.pcs[p]) && !InCommit(t.pcs[p])
    requires t.pcs == s.pcs[p := t.pcs[p]] && t.committing == s.committing
    requires s.committing ==> t.n == s.n && t.outstanding == s.outstanding
    ensures OneCommitter(t)
  {
    if s.committing {
      var i :| 0 <= i < |s.pcs| && InCommit(s.pcs[i]);
      assert InCommit(t.pcs[i]);
    }
  }

  lemma LogWriteInv(s: State, p: nat, adds: bool)
    requires Inv(s) && p < |s.pcs| && s.pcs[p].InOp? && s.pcs[p].used < MAXOPBLOCKS
    ensures Inv(Step(s, LogWrite(p, adds)))
  {
    BudgetMeansRoom(s, p);
    var t := Step(s, LogWrite(p, adds));
    SumsAfterMove(s.pcs, p, t.pcs[p]);
    CommitterKept(s, t, p);
  }

  lemma EndOpInv(s: State, p: nat)
    requires Inv(s) && p < |s.pcs| && s.pcs[p].InOp?
    ensures Inv(Step(s, EndOp(p)))
  {
    var t := Step(s, EndOp(p));
    SumsAfterMove(s.pcs, p, t.pcs[p]);
    UnusedBounds(s.pcs, p);
    UnusedBounds(t.pcs, p);
    if t.committing {
      assert InCommit(t.pcs[p]);
    } else {
      CommitterKept(s, t, p);
    }
  }

  lemma CommitInv(s: State, p: nat)
    requires Inv(s) && p < |s.pcs| && InCommit(s.pcs[p])
    ensures s.pcs[p].Committing? ==> Inv(Step(s, ClearLog(p)))
    ensures s.pcs[p].Cleared? ==> Inv(Step(s, EndCommit(p)))
  {
    var t := if s.pcs[p].Committing? then Step(s, ClearLog(p)) else Step(s, EndCommit(p));
    SumsAfterMove(s.pcs, p, t.pcs[p]);
    assert s.pcs[p].Committing? ==> InCommit(t.pcs[p]);
  }

  lemma EnterInv(s: State, e: Event)
    requires Inv(s) && Enabled(s, e) && (e.Enter? || e.WakeUp?)
    ensures Inv(Step(s, e))
  {
    var t := Step(s, e);
    SumsAfterMove(s.pcs, e.p, t.pcs[e.p]);
    CommitterKept(s, t, e.p);
  }

  lemma StartSyncInv(s: State, p: nat)
    requires Inv(s) && Enabled(s, StartSync(p))
    ensures Inv(Step(s, StartSync(p)))
  {
    var t := Step(s, StartSync(p));
    SumsAfterMove(s.pcs, p, t.pcs[p]);
    CommitterKept(s, t, p);
  }

  lemma RetrySyncInv(s: State, p: nat)
    requires Inv(s) && Enabled(s, RetrySync(p))
    ensures Inv(Step(s, RetrySync(p)))
  {
    var t := Step(s, RetrySync(p));
    SumsAfterMove(s.pcs, p, t.pcs[p]);
    CommitterKept(s, t, p);
  }

  /** Every step of an operation within its budget keeps the protocol's invariant. */
  lemma StepInv(s: State, e: Event)
    requires Inv(s) && Enabled(s, e) && HasBudget(s, e)
    ensures Inv(Step(s, e))
  {
    match e
    case TryBegin(p) => BeginInv(s, p);
    case LogWrite(p, adds) => LogWriteInv(s, p, adds);
    case EndOp(p) => EndOpInv(s, p);
    case ClearLog(p) => CommitInv(s, p);
    case EndCommit(p) => CommitInv(s, p);
    case Enter(_) => EnterInv(s, e);
    case WakeUp(_) => EnterInv(s, e);
    case StartSync(p) => StartSyncInv(s, p);
    case RetrySync(p) => RetrySyncInv(s, p);
  }

  /** A sync that returns finds every operation that ended before it started in a finished commit. */
  lemma SyncIsDurable(s: State, p: nat)
    requires Inv(s)
    ensures Enabled(s, StartSync(p)) && At(Step(s, StartSync(p)), p, Out) ==> s.safe == s.ended
    ensures Enabled(s, RetrySync(p)) && At(Step(s, RetrySync(p)), p, Out) ==> s.pcs[p].ended <= s.safe
    ensures Enabled(s, StartSync(p)) && !At(Step(s, StartSync(p)), p, Out) ==>
      Step(s, StartSync(p)).pcs[p].ended == s.ended
  {
  }

  ghost predicate IsRun(s: State, es: seq<Event>)
    decreases |es|
  {
    es != [] ==> Enabled(s, es[0]) && IsRun(Step(s, es[0]), es[1..])
  }

  ghost function Exec(s: State, es: seq<Event>): State
    requires IsRun(s, es)
    decreases |es|
  {
    if es == [] then s else Exec(Step(s, es[0]), es[1..])
  }

  ghost predicate KeepsBudgets(s: State, es: seq<Event>)
    requires IsRun(s, es)
    decreases |es|
  {
    es == [] || (HasBudget(s, es[0]) && KeepsBudgets(Step(s, es[0]), es[1..]))
  }

  /** In every run in which operations keep their budgets, the invariant holds and nothing panics. */
  lemma {:induction false} RunInv(s: State, es: seq<Event>)
    requires Inv(s) && IsRun(s, es) && KeepsBudgets(s, es)
    ensures Inv(Exec(s, es))
    decreases |es|
  {
    if es != [] {
      StepInv(s, es[0]);
      RunInv(Step(s, es[0]), es[1..]);
    }
  }

  lemma {:induction false} InitSums(n: nat)
    ensures Active(seq(n, i => Out)) == 0 && Unused(seq(n, i => Out)) == 0
  {
    if n > 0 {
      var pcs := seq(n, i => Out);
      assert pcs[..n - 1] == seq(n - 1, i => Out);
      InitSums(n - 1);
    }
  }

  lemma InitInv(n: nat)
    ensures Inv(Init(n))
  {
    InitSums(n);
  }

  // A block already in the log can still be refused.

  lemma {:induction false} ExecConcat(s: State, es: seq<Event>, fs: seq<Event>)
    requires IsRun(s, es) && IsRun(Exec(s, es), fs)
    ensures IsRun(s, es + fs) && Exec(s, es + fs) == Exec(Exec(s, es), fs)
    decreases |es|
  {
    if es == [] {
      assert es + fs == fs;
    } else {
      assert (es + fs)[1..] == es[1..] + fs;
      ExecConcat(Step(s, es[0]), es[1..], fs);
    }
  }

  /** k writes of new blocks by one operation. */
  lemma {:induction false} Writes(s: State, p: nat, k: nat) returns (es: seq<Event>)
    requires |s.registered| == |s.pcs| && p < |s.pcs| && s.pcs[p].InOp? && s.outstanding >= 1 && s.n + k <= LOGBLOCKS
    ensures IsRun(s, es) && Exec(s, es) == s.(n := s.n + k, pcs := s.pcs[p := InOp(s.pcs[p].used + k)])
    decreases k
  {
    if k == 0 {
      es := [];
      assert s.pcs[p := s.pcs[p]] == s.pcs;
    } else {
      var rest := Writes(Step(s, LogWrite(p, true)), p, k - 1);
      es := [LogWrite(p, true)] + rest;
      RunThen(s, LogWrite(p, true), rest);
    }
  }

  /** An operation that finds room begins. */
  lemma Begins(s: State, p: nat) returns (es: seq<Event>)
    requires |s.registered| == |s.pcs| && At(s, p, Out) && !s.committing && !Full(s)
    ensures IsRun(s, es) && Exec(s, es) == s.(outstanding := s.outstanding + 1, pcs := s.pcs[p := InOp(0)])
  {
    var s1 := Step(s, Enter(p));
    assert Step(s1, TryBegin(p)).pcs == s.pcs[p := InOp(0)];
    RunOne(s1, TryBegin(p));
    RunThen(s, Enter(p), [TryBegin(p)]);
    es := [Enter(p)] + [TryBegin(p)];
  }

  lemma RunThen(s: State, e: Event, es: seq<Event>)
    requires Enabled(s, e) && IsRun(Step(s, e), es)
    ensures IsRun(s, [e] + es) && Exec(s, [e] + es) == Exec(Step(s, e), es)
  {
    hide Step, Enabled;
    assert ([e] + es)[1..] == es;
  }

  lemma RunOne(s: State, e: Event)
    requires Enabled(s, e)
    ensures IsRun(s, [e]) && Exec(s, [e]) == Step(s, e)
  {
    hide Step, Enabled;
    assert [e] + [] == [e];
    RunThen(s, e, []);
  }

  /**
   log_write tests for a full log before it looks for the block: three
   operations that have each added their ten blocks leave a log in which the
   next log_write panics, even of a block that is listed already.
   */
  lemma RewriteOfLoggedBlockPanics() returns (es: seq<Event>)
    ensures IsRun(Init(3), es) && Exec(Init(3), es).n == LOGBLOCKS
    ensures Exec(Init(3), es).pcs == [InOp(10), InOp(10), InOp(10)]
    ensures Enabled(Exec(Init(3), es), LogWrite(0, false))
    ensures Step(Exec(Init(3), es), LogWrite(0, false)).pcs[0] == Dead
  {
    es := [];
    for p := 0 to 3
      invariant IsRun(Init(3), es)
      invariant var s := Exec(Init(3), es);
        |s.pcs| == |s.registered| == 3 && s.outstanding == p && s.n == 0 && !s.committing
        && forall i :: 0 <= i < 3 ==> s.pcs[i] == if i < p then InOp(0) else Out
    {
      var more := Begins(Exec(Init(3), es), p);
      ExecConcat(Init(3), es, more);
      es := es + more;
    }
    for p := 0 to 3
      invariant IsRun(Init(3), es)
      invariant var s := Exec(Init(3), es);
        |s.pcs| == |s.registered| == 3 && s.outstanding == 3 && s.n == p * MAXOPBLOCKS
        && forall i :: 0 <= i < 3 ==> s.pcs[i] == InOp(if i < p then 10 else 0)
    {
      var more := Writes(Exec(Init(3), es), p, MAXOPBLOCKS);
      ExecConcat(Init(3), es, more);
      es := es + more;
    }
  }

  /** In a state the protocol reaches, log_write panics exactly when the log is full, which budget left excludes. */
  lemma PanicsExactlyWhenFull(s: State, p: nat, adds: bool)
    requires Inv(s) && Enabled(s, LogWrite(p, adds))
    ensures Step(s, LogWrite(p, adds)).pcs[p] == Dead <==> s.n == LOGBLOCKS
    ensures s.n == LOGBLOCKS ==> s.pcs[p].used == MAXOPBLOCKS
  {
    UnusedBounds(s.pcs, p);
  }

  // What the calls come to.

  predicate InBegin(pc: Pc) { pc.Begin? || pc.BeginWait? }

  /**
   begin_op ends only inside an operation, by the caller's own step, which
   admits it exactly when no commit is under way and its share fits; otherwise
   the caller registers and waits.
   */
  lemma BeginEnds(s: State, e: Event, p: nat)
    requires Inv(s) && Enabled(s, e) && p < |s.pcs| && InBegin(s.pcs[p])
    ensures p < |Step(s, e).pcs|
    ensures !InBegin(Step(s, e).pcs[p]) ==>
      e == TryBegin(p) && Step(s, e).pcs[p] == InOp(0) && Step(s, e).outstanding == s.outstanding + 1
    ensures e == TryBegin(p) ==>
      var t := Step(s, e);
      if !s.committing && s.n + (s.outstanding + 1) * 10 <= 30 then t.pcs[p] == InOp(0)
      else t.pcs[p].BeginWait? && p < |t.registered| && t.registered[p]
  {
  }

  /** end_op of the last operation commits; any other one leaves no one registered. */
  lemma EndOutcome(s: State, p: nat)
    requires Inv(s) && Enabled(s, EndOp(p))
    ensures var t := Step(s, EndOp(p));
      && t.ended == s.ended + 1 && t.outstanding == s.outstanding - 1
      && (if s.outstanding == 1 then t.committing && t.pcs[p].Committing?
          else !t.committing && t.pcs[p].Out? && forall i :: 0 <= i < |t.registered| ==> !t.registered[i])
  {
    UnusedBounds(s.pcs, p);
  }

  /** sys_sync ends only by the caller's own step, and waits for a commit that has yet to finish. */
  lemma SyncEnds(s: State, e: Event, p: nat)
    requires Inv(s) && Enabled(s, e) && p < |s.pcs| && s.pcs[p].SyncWait?
    ensures p < |Step(s, e).pcs|
    ensures !Step(s, e).pcs[p].SyncWait? ==> e == RetrySync(p) && Step(s, e).pcs[p].Out? && s.pcs[p].target <= s.ncommit
    ensures e == RetrySync(p) && s.pcs[p].target <= s.ncommit ==> Step(s, e).pcs[p].Out?
  {
  }

  ghost predicate Leads(s: State, es: seq<Event>, t: State) { IsRun(s, es) && Exec(s, es) == t }

  lemma LeadsNext(s: State, es: seq<Event>, t: State, e: Event)
    requires Leads(s, es, t) && Enabled(t, e)
    ensures Leads(s, es + [e], Step(t, e))
  {
    hide Step, Enabled;
    RunOne(t, e);
    ExecConcat(s, es, [e]);
  }

  /** The only operation ends and its commit finishes. */
  lemma LastEnds(s: State, p: nat) returns (es: seq<Event>, t: State)
    requires Inv(s) && p < |s.pcs| && s.pcs[p].InOp? && s.outstanding == 1
    ensures Leads(s, es, t) && Inv(t) && t.n == 0 && t.outstanding == 0 && !t.committing && t.ncommit == s.ncommit + 1
    ensures |t.pcs| == |s.pcs| && t.pcs == s.pcs[p := Out] && t.safe == s.ended + 1
  {
    EndOutcome(s, p);
    EndOpInv(s, p);
    hide Inv;
    var s1 := Step(s, EndOp(p));
    var s2 := Step(s1, ClearLog(p));
    t := Step(s2, EndCommit(p));
    CommitInv(s1, p);
    CommitInv(s2, p);
    LeadsNext(s, [], s, EndOp(p));
    LeadsNext(s, [] + [EndOp(p)], s1, ClearLog(p));
    LeadsNext(s, [] + [EndOp(p)] + [ClearLog(p)], s2, EndCommit(p));
    es := [] + [EndOp(p)] + [ClearLog(p)] + [EndCommit(p)];
  }

  /** Whoever waits in begin_op for the only operation is admitted after its commit. */
  lemma WaiterIsServed(s: State, p: nat, q: nat) returns (es: seq<Event>)
    requires Inv(s) && p < |s.pcs| && q < |s.pcs| && s.pcs[p].InOp? && s.outstanding == 1 && s.pcs[q].BeginWait?
    ensures IsRun(s, es) && q < |Exec(s, es).pcs| && Exec(s, es).pcs[q] == InOp(0)
  {
    var t;
    es, t := LastEnds(s, p);
    var t1 := Step(t, WakeUp(q));
    LeadsNext(s, es, t, WakeUp(q));
    LeadsNext(s, es + [WakeUp(q)], t1, TryBegin(q));
    es := es + [WakeUp(q)] + [TryBegin(q)];
  }

  /** Whoever waits in sys_sync for the only operation returns after its commit. */
  lemma SyncIsServed(s: State, p: nat, q: nat) returns (es: seq<Event>)
    requires Inv(s) && p < |s.pcs| && q < |s.pcs| && s.pcs[p].InOp? && s.outstanding == 1 && s.pcs[q].SyncWait?
    ensures IsRun(s, es) && q < |Exec(s, es).pcs| && Exec(s, es).pcs[q].Out?
  {
    var t;
    es, t := LastEnds(s, p);
    LeadsNext(s, es, t, RetrySync(q));
    es := es + [RetrySync(q)];
  }

  /** From boot, three operations keep a fourth waiting, and a sync with it. */
  lemma WaitIsReached() returns (es: seq<Event>)
    ensures IsRun(Init(5), es)
    ensures var s := Exec(Init(5), es);
      |s.pcs| == |s.registered| == 5 && s.pcs[3].BeginWait? && s.registered[3] && s.pcs[4].SyncWait?
        && s.outstanding == 3
  {
    es := [];
    for p := 0 to 3
      invariant IsRun(Init(5), es)
      invariant var s := Exec(Init(5), es);
        |s.pcs| == |s.registered| == 5 && s.outstanding == p && s.n == 0 && !s.committing
        && forall i :: p <= i < 5 ==> s.pcs[i] == Out
    {
      var more := Begins(Exec(Init(5), es), p);
      ExecConcat(Init(5), es, more);
      es := es + more;
    }
    var s := Exec(Init(5), es);
    var s1 := Step(s, Enter(3));
    var s2 := Step(s1, TryBegin(3));
    LeadsNext(Init(5), es, s, Enter(3));
    LeadsNext(Init(5), es + [Enter(3)], s1, TryBegin(3));
    LeadsNext(Init(5), es + [Enter(3)] + [TryBegin(3)], s2, StartSync(4));
    es := es + [Enter(3)] + [TryBegin(3)] + [StartSync(4)];
  }
}
