/** What the coordinator guarantees over all runs, and exactly when. */
module CoordinatorTheorems {
  import opened Types
  import opened Decisions
  import opened Coordinator
  import opened CoordinatorSafety

  // ---------- runs ----------

  /** The states that some run of the system ends in. */
  ghost predicate Reachable(c: Config, s: State) {
    exists events :: RunFrom(c, events) == Some(s)
  }

  lemma {:induction false} ExecInv(c: Config, s: State, events: seq<Event>)
    requires c.Valid() && Inv(c, s)
    ensures Exec(c, s, events).Some? ==> Inv(c, Exec(c, s, events).value)
    decreases |events|
  {
    if events != [] {
      StepKeeps(c, s, events[0]);
      if Step(c, s, events[0]).Some? {
        ExecInv(c, Step(c, s, events[0]).value, events[1..]);
      }
    }
  }

  lemma ReachableInv(c: Config, s: State)
    requires c.Valid() && Reachable(c, s)
    ensures Inv(c, s)
  {
    var events :| RunFrom(c, events) == Some(s);
    InitInv(c);
    ExecInv(c, Init(c), events);
  }

  lemma {:induction false} ExecSnoc(c: Config, s: State, events: seq<Event>, e: Event)
    requires |s.fwd| == c.N() && Exec(c, s, events).Some?
    ensures |Exec(c, s, events).value.fwd| == c.N()
    ensures Exec(c, s, events + [e]) == Step(c, Exec(c, s, events).value, e)
    decreases |events|
  {
    if events == [] {
      assert ([] + [e])[1..] == [];
      StepKeepsWidth(c, s, e);
    } else {
      StepKeepsWidth(c, s, events[0]);
      assert (events + [e])[1..] == events[1..] + [e];
      ExecSnoc(c, Step(c, s, events[0]).value, events[1..], e);
    }
  }

  lemma ReachableInit(c: Config)
    ensures Reachable(c, Init(c))
  {
    assert RunFrom(c, []) == Some(Init(c));
  }

  lemma ReachableStep(c: Config, s: State, e: Event)
    requires Reachable(c, s) && |s.fwd| == c.N() && Step(c, s, e).Some?
    ensures Reachable(c, Step(c, s, e).value) && |Step(c, s, e).value.fwd| == c.N()
  {
    var events :| RunFrom(c, events) == Some(s);
    ExecSnoc(c, Init(c), events, e);
    StepKeepsWidth(c, s, e);
    assert RunFrom(c, events + [e]) == Step(c, s, e);
  }

  // ---------- status order ----------

  /** From every reachable state, every event moves the persisted status along an edge. */
  lemma StatusOrder(c: Config, s: State, e: Event)
    requires c.Valid() && Reachable(c, s) && |s.fwd| == c.N() && Step(c, s, e).Some?
    ensures Edge(c, s.row, Step(c, s, e).value.row)
  {
    ReachableInv(c, s);
    StepKeeps(c, s, e);
  }

  /** A final status stays, whatever happens afterwards. */
  lemma {:induction false} FinalAbsorbs(c: Config, s: State, events: seq<Event>)
    requires c.Valid() && Reachable(c, s) && |s.fwd| == c.N() && s.row.IsFinal()
    ensures Exec(c, s, events).Some? ==> Exec(c, s, events).value.row == s.row
    decreases |events|
  {
    if events != [] {
      ReachableInv(c, s);
      StepKeeps(c, s, events[0]);
      if Step(c, s, events[0]).Some? {
        ReachableStep(c, s, events[0]);
        FinalAbsorbs(c, Step(c, s, events[0]).value, events[1..]);
      }
    }
  }

  // ---------- an abort that was answered Ok ----------

  ghost predicate AbortsHold(c: Config) {
    forall s :: Reachable(c, s) && s.abortOk ==> s.row != Succeed
  }

  /** Saga or message without a branch: abort is answered Ok and the next round writes Succeed. A saga
      without steps is refused when it is submitted, so the transaction this happens to is a message
      that was allowed to expand to no subscriber. */
  lemma AbortLostRun(c: Config)
    requires c.Valid() && !Lossless(c)
    ensures exists s :: Reachable(c, s) && s.abortOk && s.row == Succeed
  {
    ReachableInit(c);
    var s0 := Init(c);
    ReachableStep(c, s0, AbortRead(0));
    var s1 := Step(c, s0, AbortRead(0)).value;
    ReachableStep(c, s1, AbortWrite(0));
    var s2 := Step(c, s1, AbortWrite(0)).value;
    assert s2.row == Aborting && s2.abortOk;
    ReachableStep(c, s2, Lock(0));
    var s3 := Step(c, s2, Lock(0)).value;
    assert s3.sessions[0] == Session(Aborting, Deciding(Succeed));
    ReachableStep(c, s3, Write(0));
    var s4 := Step(c, s3, Write(0)).value;
    assert s4.row == Succeed;
  }

  /** An abort that was answered Ok is never overtaken by success, over all interleavings, exactly
      when the branch list is non-empty or the mode is TCC or XA. */
  lemma AbortsHoldExactly(c: Config)
    requires c.Valid()
    ensures AbortsHold(c) <==> Lossless(c)
  {
    if Lossless(c) {
      forall s | Reachable(c, s) && s.abortOk
        ensures s.row != Succeed
      {
        ReachableInv(c, s);
      }
    } else {
      AbortLostRun(c);
    }
  }

  // ---------- direction of a two-phase transaction ----------

  /** Some worker decided to confirm or commit, and some worker to cancel or roll back. */
  ghost predicate BothDirections(s: State) {
    && (exists call :: call in s.called && (call.op == Confirm || call.op == Commit))
    && (exists call :: call in s.called && (call.op == Cancel || call.op == BranchOp.Rollback))
  }

  ghost predicate OneDirection(c: Config) {
    forall s :: Reachable(c, s) ==> !BothDirections(s)
  }

  /** The SQL `submit_prepared` answers Advanced without looking at the row count of its UPDATE.
      An abort between its SELECT and its UPDATE leaves the row aborting while the inline driver
      is handed a submitted one. */
  lemma SubmitRace(c: Config)
    returns (s: State)
    requires c.Valid() && c.tt != Saga && c.N() > 0 && c.backend == SqlBackend && c.inlineDrive
    ensures Reachable(c, s) && |s.fwd| == c.N()
    ensures s.row == Aborting && s.sessions == map[0 := Session(Submitted, Looping)]
    ensures s.fwd == Init(c).fwd && s.bwd == Init(c).bwd && s.called == {}
  {
    ReachableInit(c);
    s := Init(c);
    ReachableStep(c, s, SubmitRead(0));
    s := Step(c, s, SubmitRead(0)).value;
    ReachableStep(c, s, AbortRead(0));
    s := Step(c, s, AbortRead(0)).value;
    ReachableStep(c, s, AbortWrite(0));
    s := Step(c, s, AbortWrite(0)).value;
    assert s.row == Aborting && s.submits == {0};
    ReachableStep(c, s, SubmitWrite(0, 0));
    s := Step(c, s, SubmitWrite(0, 0)).value;
  }

  lemma BothDirectionsRun(c: Config)
    requires c.Valid() && (c.tt == Tcc || c.tt == Xa) && c.N() > 0 && c.backend == SqlBackend && c.inlineDrive
    ensures exists s :: Reachable(c, s) && BothDirections(s)
  {
    var s := SubmitRace(c);
    ReachableStep(c, s, Read(0));
    s := Step(c, s, Read(0)).value;
    assert Call(0, c.FwdOp()) in s.called;
    OtherDirection(c, s);
  }

  /** The second worker finds the row aborting and calls the other way. */
  lemma OtherDirection(c: Config, s0: State)
    requires c.Valid() && (c.tt == Tcc || c.tt == Xa) && c.N() > 0 && Reachable(c, s0) && |s0.fwd| == c.N()
    requires s0.row == Aborting && 1 !in s0.sessions && s0.bwd == AllPending(c.N()) && Call(0, c.FwdOp()) in s0.called
    ensures exists s :: Reachable(c, s) && BothDirections(s)
  {
    var s := s0;
    ReachableStep(c, s, Lock(1));
    s := Step(c, s, Lock(1)).value;
    assert s.sessions[1] == Session(Aborting, Looping);
    ReachableStep(c, s, Read(1));
    s := Step(c, s, Read(1)).value;
    assert Call(c.N() - 1, c.BwdOp()) in s.called;
    assert Call(0, c.FwdOp()) in s.called;
  }

  /** No run of a TCC or XA transaction ever sends both a confirm (commit) and a cancel (rollback),
      exactly when submit is atomic (Redis) or the submitter does not drive the row itself. */
  lemma OneDirectionExactly(c: Config)
    requires c.Valid() && (c.tt == Tcc || c.tt == Xa) && c.N() > 0
    ensures OneDirection(c) <==> c.backend == RedisBackend || !c.inlineDrive
  {
    if c.backend == RedisBackend || !c.inlineDrive {
      forall s | Reachable(c, s)
        ensures !BothDirections(s)
      {
        ReachableInv(c, s);
        forall call | call in s.called
          ensures Directed(c, s, call) && (call.op == c.FwdOp() || call.op == c.BwdOp())
        {
          assert InOrder(c, s, call);
        }
      }
    } else {
      BothDirectionsRun(c);
    }
  }

  // ---------- two-phase message ----------

  ghost predicate FailedUntouched(c: Config) {
    forall s :: Reachable(c, s) && s.row == Failed ==> s.called == {}
  }

  lemma FailedTouchedRun(c: Config)
    requires c.Valid() && c.tt == Msg && c.N() > 0 && c.backend == SqlBackend && c.inlineDrive
    ensures exists s :: Reachable(c, s) && s.row == Failed && s.called != {}
  {
    var s := SubmitRace(c);
    var first := FirstUnfinished(DoneView(s.fwd));
    assert first == 0;
    ReachableStep(c, s, Read(0));
    s := Step(c, s, Read(0)).value;
    assert first in UnfinishedIn(c.steps[first], c.steps, DoneView(Init(c).fwd));
    assert Call(first, Action) in s.called;
    MessageAborts(c, s);
  }

  /** The second worker finds the aborted message and ends it. */
  lemma MessageAborts(c: Config, s0: State)
    requires c.Valid() && c.tt == Msg && c.N() > 0 && Reachable(c, s0) && |s0.fwd| == c.N()
    requires s0.row == Aborting && 1 !in s0.sessions && s0.called != {} && !c.Shortcut()
    ensures exists s :: Reachable(c, s) && s.row == Failed && s.called != {}
  {
    var s := s0;
    ReachableStep(c, s, Lock(1));
    s := Step(c, s, Lock(1)).value;
    assert s.sessions[1] == Session(Aborting, Looping);
    ReachableStep(c, s, Read(1));
    s := Step(c, s, Read(1)).value;
    ReachableStep(c, s, Write(1));
    s := Step(c, s, Write(1)).value;
    assert s.row == Failed && s.called == s0.called;
  }

  /** A message that ends Failed never had any of its branches called, exactly when submit is
      atomic or the submitter does not drive the row itself. */
  lemma FailedUntouchedExactly(c: Config)
    requires c.Valid() && c.tt == Msg && c.N() > 0
    ensures FailedUntouched(c) <==> c.backend == RedisBackend || !c.inlineDrive
  {
    if c.backend == RedisBackend || !c.inlineDrive {
      forall s | Reachable(c, s) && s.row == Failed
        ensures s.called == {}
      {
        ReachableInv(c, s);
      }
    } else {
      FailedTouchedRun(c);
    }
  }

  // ---------- completeness and order of calls ----------

  /** The operations of each mode, forward and back. */
  predicate Operations(tt: TransType, fwd: BranchOp, bwd: BranchOp) {
    match tt
    case Tcc => fwd == Confirm && bwd == Cancel
    case Xa => fwd == Commit && bwd == BranchOp.Rollback
    case _ => fwd == Action && bwd == Compensate
  }

  /** A transaction that ends Succeed had every forward branch acknowledged: confirmed for TCC,
      committed for XA, executed for saga and message. */
  lemma SucceedMeansAllAcked(c: Config, s: State)
    requires c.Valid() && Reachable(c, s) && s.row == Succeed
    ensures c.tt == Tcc ==> forall i :: 0 <= i < c.N() ==> Call(i, Confirm) in s.acked
    ensures c.tt == Xa ==> forall i :: 0 <= i < c.N() ==> Call(i, Commit) in s.acked
    ensures c.tt == Saga || c.tt == Msg ==> forall i :: 0 <= i < c.N() ==> Call(i, Action) in s.acked
  {
    ReachableInv(c, s);
    assert Operations(c.tt, c.FwdOp(), c.BwdOp());
  }

  /** One that ends Failed had every undo branch answered: cancelled for TCC and rolled back for XA,
      with Success; compensated for a saga, where a refusal counts as an answer. */
  lemma FailedMeansAllUndone(c: Config, s: State)
    requires c.Valid() && Reachable(c, s) && s.row == Failed
    ensures c.tt == Tcc ==> forall i :: 0 <= i < c.N() ==> Call(i, Cancel) in s.acked
    ensures c.tt == Xa ==> forall i :: 0 <= i < c.N() ==> Call(i, BranchOp.Rollback) in s.acked
    ensures c.tt == Saga ==>
      forall i :: 0 <= i < c.N() ==> Call(i, Compensate) in s.acked || Call(i, Compensate) in s.refused
  {
    ReachableInv(c, s);
    assert Operations(c.tt, c.FwdOp(), c.BwdOp());
  }

  /** Whatever is called is an operation of the mode, on a branch there is. An undo call was made for a
      row that is rolling back or failed; a forward call, where the direction is settled, for one that
      is going forward or succeeded. */
  lemma CallsMatchRow(c: Config, s: State, call: Call, fwd: BranchOp, bwd: BranchOp)
    requires c.Valid() && Reachable(c, s) && call in s.called && Operations(c.tt, fwd, bwd)
    ensures call.index < c.N() && (call.op == fwd || (call.op == bwd && c.tt != Msg))
    ensures call.op == bwd ==> s.row == Aborting || s.row == Failed
    ensures call.op == fwd && c.tt != Saga && (c.backend == RedisBackend || !c.inlineDrive) ==>
      s.row == Submitted || s.row == Succeed
  {
    ReachableInv(c, s);
    assert InOrder(c, s, call) && Directed(c, s, call);
  }

  /** Forward calls go out in order: every branch before this one (for a message: every branch of
      an earlier step) had already been acknowledged, across crashes and stale workers. */
  lemma ForwardInOrder(c: Config, s: State, i: nat, j: nat, fwd: BranchOp, bwd: BranchOp)
    requires c.Valid() && Reachable(c, s) && Operations(c.tt, fwd, bwd) && Call(i, fwd) in s.called
    requires j < c.N() && i < c.N() && (if c.tt == Msg then c.steps[j] < c.steps[i] else j < i)
    ensures Call(j, fwd) in s.acked
  {
    ReachableInv(c, s);
    assert InOrder(c, s, Call(i, fwd));
  }

  /** Undo calls go out in reverse order. */
  lemma BackwardInReverse(c: Config, s: State, i: nat, j: nat, fwd: BranchOp, bwd: BranchOp)
    requires c.Valid() && c.tt != Msg && Reachable(c, s) && Operations(c.tt, fwd, bwd) && Call(i, bwd) in s.called
    requires i < j < c.N()
    ensures Call(j, bwd) in s.acked || (c.tt == Saga && Call(j, bwd) in s.refused)
  {
    ReachableInv(c, s);
    assert InOrder(c, s, Call(i, bwd));
  }

  // ---------- the Redis shortcut ----------

  /** Where the shortcut applies, the row is in the worker's status or already where it is going. */
  lemma UncontestedRow(c: Config, s: State, w: nat)
    requires c.Valid() && c.backend == RedisBackend && Reachable(c, s)
    requires w in s.sessions && s.sessions[w].pc.Deciding?
    requires !StatusContested(s.sessions[w].status, c.tt)
    ensures s.row == s.sessions[w].status || s.row == s.sessions[w].pc.to
    ensures s.sessions[w].pc.to.IsFinal()
  {
    ReachableInv(c, s);
    assert Good(c, s, s.sessions[w]);
  }

  /** The comparison switch is only looked at when a global status is written. */
  lemma CompareUnused(c: Config, s: State, e: Event)
    requires |s.fwd| == c.N() && !e.AbortWrite? && !e.Write?
    ensures Step(c, s, e) == Step(c.(fullCompare := true), s, e)
  {
    var d := c.(fullCompare := true);
    assert d.FwdOp() == c.FwdOp() && d.BwdOp() == c.BwdOp();
    match e {
      case Read(w) =>
        if w in s.sessions {
          assert Decide(c, s.sessions[w].status, s.fwd, s.bwd) == Decide(d, s.sessions[w].status, s.fwd, s.bwd);
        }
      case Lock(w) => assert Entry(c, s.row) == Entry(d, s.row);
      case Answer(w, r) =>
        if w in s.sessions && s.sessions[w].pc.Calling? {
          assert StepAnswer(c, s, w, r) == StepAnswer(d, s, w, r);
        }
      case FanAnswer(w, i, r) =>
        if w in s.sessions && s.sessions[w].pc.Fanout? {
          assert StepFan(c, s, w, i, r) == StepFan(d, s, w, i, r);
        }
      case _ =>
    }
  }

  lemma ShortcutWrite(c: Config, s: State, w: nat)
    requires c.Valid() && Inv(c, s) && w in s.sessions && s.sessions[w].pc.Deciding?
    ensures StepWrite(c, s, w) == StepWrite(c.(fullCompare := true), s, w)
  {
    assert Good(c, s, s.sessions[w]);
  }

  lemma ShortcutAbort(c: Config, s: State, k: nat)
    requires c.Valid() && Inv(c, s) && k in s.aborts
    ensures StepAbortWrite(c, s, k) == StepAbortWrite(c.(fullCompare := true), s, k)
  {
    ContestedMatchesOutsideWriters(s.aborts[k], c.tt);
  }

  lemma ShortcutStep(c: Config, s: State, e: Event)
    requires c.Valid() && Inv(c, s)
    ensures Step(c, s, e) == Step(c.(fullCompare := true), s, e)
  {
    if e.AbortWrite? {
      if e.k in s.aborts {
        ShortcutAbort(c, s, e.k);
      }
    } else if e.Write? {
      if e.w in s.sessions && s.sessions[e.w].pc.Deciding? {
        ShortcutWrite(c, s, e.w);
      }
    } else {
      CompareUnused(c, s, e);
    }
  }

  lemma {:induction false} ShortcutExec(c: Config, s: State, events: seq<Event>)
    requires c.Valid() && Inv(c, s)
    ensures Exec(c, s, events) == Exec(c.(fullCompare := true), s, events)
    decreases |events|
  {
    if events != [] {
      ShortcutStep(c, s, events[0]);
      StepKeeps(c, s, events[0]);
      if Step(c, s, events[0]).Some? {
        ShortcutExec(c, Step(c, s, events[0]).value, events[1..]);
      }
    }
  }

  /** Writing without comparing where nobody else can have written is invisible: the same events
      lead to the same state, sessions, rows and history included, as with a comparison every time. */
  lemma ShortcutRefinesCompare(c: Config, events: seq<Event>)
    requires c.Valid()
    ensures RunFrom(c, events) == RunFrom(c.(fullCompare := true), events)
  {
    InitInv(c);
    ShortcutExec(c, Init(c), events);
  }
}
