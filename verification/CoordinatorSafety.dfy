/** The inductive invariant of the coordinator and what follows from it for every run. */
module CoordinatorSafety {
  import opened Types
  import opened Decisions
  import opened Coordinator

  // ---------- the order of statuses ----------

  /** An abort cannot be lost unless an empty branch list makes the driver write Succeed. */
  predicate Lossless(c: Config) {
    c.N() > 0 || c.tt == Tcc || c.tt == Xa
  }

  /** Where a rollback ends. */
  function RollbackEnd(c: Config): GlobalStatus {
    if Lossless(c) then Failed else Succeed
  }

  /** Which status changes of the persisted row are possible at all. */
  predicate Edge(c: Config, a: GlobalStatus, b: GlobalStatus) {
    || a == b
    || (a == Prepared && c.tt != Saga && (b == Submitted || b == Aborting || (b == Failed && c.tt == Msg)))
    || (a == Submitted && (b == Succeed || (b == Aborting && c.tt == Saga)))
    || (a == Aborting && b == RollbackEnd(c))
  }

  /** The direction is fixed by submit: only for modes other than saga, and only when no worker can
      be handed a submitted row that was not in fact moved. */
  predicate Settled(c: Config) {
    c.tt != Saga && (c.backend == RedisBackend || !c.inlineDrive)
  }

  // ---------- invariant ----------

  predicate Target(c: Config, from: GlobalStatus, to: GlobalStatus) {
    match from
    case Prepared => ((c.tt == Tcc || c.tt == Xa) && to == Aborting) ||
      (c.tt == Msg && (to == Submitted || to == Failed))
    case Submitted => to == Succeed || (c.tt == Saga && to == Aborting)
    case Aborting => to == RollbackEnd(c)
    case _ => false
  }

  predicate WellPlaced(c: Config, ss: Session) {
    match ss.pc
    case Timing => (c.tt == Tcc || c.tt == Xa) && ss.status == Prepared
    case Asking => c.tt == Msg && ss.status == Prepared
    case Looping => c.N() > 0 && (ss.status == Submitted || ss.status == Aborting)
    case Calling(call) =>
      && c.tt != Msg && call.index < c.N()
      && ((ss.status == Submitted && call.op == c.FwdOp()) || (ss.status == Aborting && call.op == c.BwdOp()))
    case Fanout(waiting, _) => c.tt == Msg && ss.status == Submitted && forall i :: i in waiting ==> i < c.N()
    case Deciding(to) => Target(c, ss.status, to)
  }

  /** What a worker believes, against the row. */
  predicate Agrees(c: Config, row: GlobalStatus, ss: Session) {
    && (ss.status == Submitted ==> row != Prepared && (Settled(c) ==> row == Submitted || row == Succeed))
    && (ss.status == Aborting ==> row == Aborting || row == RollbackEnd(c))
  }

  predicate AllAcked(c: Config, s: State) {
    forall i :: 0 <= i < c.N() ==> Call(i, c.FwdOp()) in s.acked
  }

  /** The undo calls from the given index on have been answered. A refused saga compensation counts
      as answered: the driver does not call it again. */
  predicate UndoAnsweredFrom(c: Config, s: State, from: nat) {
    forall i :: from <= i < c.N() ==>
      Call(i, c.BwdOp()) in s.acked || (c.tt == Saga && Call(i, c.BwdOp()) in s.refused)
  }

  predicate AllUndoAnswered(c: Config, s: State) {
    UndoAnsweredFrom(c, s, 0)
  }

  predicate Backed(c: Config, s: State, ss: Session) {
    match ss.pc
    case Calling(call) => call in s.called
    case Fanout(waiting, _) => forall i :: i in waiting ==> Call(i, Action) in s.called
    case Deciding(to) =>
      && (ss.status == Submitted && to == Succeed ==> AllAcked(c, s))
      && (ss.status == Aborting && c.tt != Msg ==> AllUndoAnswered(c, s))
    case _ => true
  }

  predicate Good(c: Config, s: State, ss: Session) {
    WellPlaced(c, ss) && Agrees(c, s.row, ss) && Backed(c, s, ss)
  }

  predicate Tables(c: Config, s: State) {
    && |s.fwd| == c.N() && |s.bwd| == c.N()
    && (forall i :: 0 <= i < c.N() && s.fwd[i] == Done ==> Call(i, c.FwdOp()) in s.acked)
    && (forall i :: 0 <= i < c.N() && s.bwd[i] == Done ==> Call(i, c.BwdOp()) in s.acked)
    && (forall i :: 0 <= i < c.N() && s.bwd[i] == Refused ==> Call(i, c.BwdOp()) in s.refused)
  }

  /** Calls go out in order: a forward call after everything before it was acknowledged, an undo
      call after everything behind it was answered. */
  predicate InOrder(c: Config, s: State, call: Call) {
    && call.index < c.N()
    && (call.op == c.FwdOp() || (call.op == c.BwdOp() && c.tt != Msg))
    && (call.op == c.FwdOp() ==>
          forall j :: 0 <= j < c.N() && (if c.tt == Msg then c.steps[j] < c.steps[call.index] else j < call.index)
            ==> Call(j, c.FwdOp()) in s.acked)
    && (call.op == c.BwdOp() ==> UndoAnsweredFrom(c, s, call.index + 1))
  }

  /** A call fixes the direction of the row. */
  predicate Directed(c: Config, s: State, call: Call) {
    && (call.op == c.BwdOp() ==> s.row == Aborting || s.row == Failed)
    && (call.op == c.FwdOp() && Settled(c) ==> s.row == Submitted || s.row == Succeed)
  }

  predicate History(c: Config, s: State) {
    && (forall call :: call in s.called ==> InOrder(c, s, call) && Directed(c, s, call))
    && s.acked <= s.called && s.refused <= s.called
    && (s.row == Succeed ==> AllAcked(c, s))
    && (s.row == Failed && c.tt != Msg ==> AllUndoAnswered(c, s))
    && (s.abortOk && Lossless(c) ==> s.row == Aborting || s.row == Failed)
  }

  predicate Outside(c: Config, s: State) {
    && (c.tt == Saga ==> s.row != Prepared)
    && (c.backend == RedisBackend ==> s.submits == {})
    && forall k :: k in s.aborts ==>
      AbortGuard(s.aborts[k], c.tt) == TryWrite && (c.tt == Saga ==> s.aborts[k] == Submitted)
  }

  predicate Inv(c: Config, s: State) {
    && Tables(c, s)
    && Outside(c, s)
    && History(c, s)
    && forall w :: w in s.sessions ==> Good(c, s, s.sessions[w])
  }

  // ---------- stability ----------

  /** Nothing is taken back: the row moves along an edge and the history grows. */
  predicate Later(c: Config, s: State, s': State) {
    && Edge(c, s.row, s'.row)
    && s.called <= s'.called && s.acked <= s'.acked && s.refused <= s'.refused
  }

  lemma GoodStable(c: Config, s: State, s': State, ss: Session)
    requires Later(c, s, s') && Good(c, s, ss)
    ensures Good(c, s', ss)
  {
  }

  lemma CallsStable(c: Config, s: State, s': State)
    requires Later(c, s, s') && History(c, s)
    ensures forall call :: call in s.called ==> InOrder(c, s', call) && Directed(c, s', call)
  {
    forall call | call in s.called
      ensures InOrder(c, s', call) && Directed(c, s', call)
    {
      assert InOrder(c, s, call) && Directed(c, s, call);
    }
  }

  /** The sessions of the new state are old ones, except for at most one. */
  lemma SessionsStable(c: Config, s: State, s': State, w: nat)
    requires Inv(c, s) && Later(c, s, s')
    requires forall v :: v in s'.sessions && v != w ==> v in s.sessions && s'.sessions[v] == s.sessions[v]
    requires w in s'.sessions ==> Good(c, s', s'.sessions[w])
    ensures forall v :: v in s'.sessions ==> Good(c, s', s'.sessions[v])
  {
    forall v | v in s'.sessions
      ensures Good(c, s', s'.sessions[v])
    {
      if v != w {
        GoodStable(c, s, s', s.sessions[v]);
      }
    }
  }

  // ---------- one event ----------

  lemma EntryGood(c: Config, s: State, status: GlobalStatus)
    requires c.Valid() && Schedulable(status, c.tt) && Tables(c, s)
    requires status == Prepared ==> c.tt != Saga
    requires Agrees(c, s.row, Entry(c, status))
    ensures Good(c, s, Entry(c, status))
  {
  }

  lemma KeepAbortRead(c: Config, s: State, k: nat)
    requires c.Valid() && Inv(c, s) && k !in s.aborts
    ensures Inv(c, StepAbortRead(c, s, k)) && Later(c, s, StepAbortRead(c, s, k))
  {
    var s' := StepAbortRead(c, s, k);
    CallsStable(c, s, s');
    SessionsStable(c, s, s', 0);
  }

  lemma KeepAbortWrite(c: Config, s: State, k: nat)
    requires c.Valid() && Inv(c, s) && k in s.aborts
    ensures Inv(c, StepAbortWrite(c, s, k)) && Later(c, s, StepAbortWrite(c, s, k))
  {
    var s' := StepAbortWrite(c, s, k);
    ContestedMatchesOutsideWriters(s.aborts[k], c.tt);
    CallsStable(c, s, s');
    SessionsStable(c, s, s', 0);
  }

  lemma KeepSubmit(c: Config, s: State, w: nat)
    requires c.Valid() && Inv(c, s) && c.backend == RedisBackend && w !in s.sessions && SubmitWrites(s.row)
    ensures
      var s' := WithInline(c, s.(row := Submitted), w);
      Inv(c, s') && Later(c, s, s')
  {
    var s' := WithInline(c, s.(row := Submitted), w);
    CallsStable(c, s, s');
    EntryGood(c, s', Submitted);
    SessionsStable(c, s, s', w);
  }

  lemma KeepSubmitWrite(c: Config, s: State, k: nat, w: nat)
    requires c.Valid() && Inv(c, s) && k in s.submits && w !in s.sessions
    ensures Inv(c, StepSubmitWrite(c, s, k, w)) && Later(c, s, StepSubmitWrite(c, s, k, w))
  {
    var s' := StepSubmitWrite(c, s, k, w);
    CallsStable(c, s, s');
    if c.inlineDrive {
      EntryGood(c, s', Submitted);
    }
    SessionsStable(c, s, s', w);
  }

  lemma KeepLock(c: Config, s: State, w: nat)
    requires c.Valid() && Inv(c, s) && w !in s.sessions && Schedulable(s.row, c.tt)
    ensures
      var s' := s.(sessions := s.sessions[w := Entry(c, s.row)]);
      Inv(c, s') && Later(c, s, s')
  {
    var s' := s.(sessions := s.sessions[w := Entry(c, s.row)]);
    CallsStable(c, s, s');
    EntryGood(c, s', s.row);
    SessionsStable(c, s, s', w);
  }

  /** A worker at the top of its loop. */
  predicate AtLoop(c: Config, s: State, status: GlobalStatus) {
    c.Valid() && Inv(c, s) && Good(c, s, Session(status, Looping))
  }

  /** What a call decided on from the rows just read owes to those rows. */
  lemma SagaCall(c: Config, s: State, status: GlobalStatus, i: nat, op: BranchOp)
    requires AtLoop(c, s, status) && c.tt == Saga
    requires SagaNext(status, s.fwd, s.bwd) == CallOne(i, op)
    ensures i < c.N() && InOrder(c, s, Call(i, op)) && Directed(c, s, Call(i, op))
    ensures op == if status == Submitted then Action else Compensate
  {
  }

  lemma TwoPhaseCall(c: Config, s: State, status: GlobalStatus, i: nat, op: BranchOp)
    requires AtLoop(c, s, status) && (c.tt == Tcc || c.tt == Xa)
    requires TwoPhaseNext(status, s.fwd, s.bwd, c.FwdOp(), c.BwdOp()) == CallOne(i, op)
    ensures i < c.N() && InOrder(c, s, Call(i, op)) && Directed(c, s, Call(i, op))
    ensures op == if status == Submitted then c.FwdOp() else c.BwdOp()
  {
  }

  lemma MsgCall(c: Config, s: State, status: GlobalStatus, idxs: seq<nat>, op: BranchOp, i: nat)
    requires AtLoop(c, s, status) && c.tt == Msg
    requires MsgNext(status, c.steps, DoneView(s.fwd)) == CallEach(idxs, op) && i in idxs
    ensures op == Action && status == Submitted
    ensures i < c.N() && InOrder(c, s, Call(i, Action)) && Directed(c, s, Call(i, Action))
  {
    var first := FirstUnfinished(DoneView(s.fwd));
    forall j | 0 <= j < c.N() && c.steps[j] < c.steps[i]
      ensures Call(j, Action) in s.acked
    {
      assert j < first;
    }
  }

  lemma FinishBacked(c: Config, s: State, status: GlobalStatus, to: GlobalStatus)
    requires AtLoop(c, s, status) && Decide(c, status, s.fwd, s.bwd) == Finish(to)
    ensures Good(c, s, Session(status, Deciding(to)))
  {
    if c.tt == Msg {
      forall i | 0 <= i < c.N() && status == Submitted
        ensures Call(i, Action) in s.acked
      {
        assert DoneView(s.fwd)[i] == Done;
      }
    }
  }

  lemma KeepRead(c: Config, s: State, w: nat)
    requires c.Valid() && Inv(c, s) && w in s.sessions && s.sessions[w].pc == Looping
    ensures Inv(c, StepRead(c, s, w)) && Later(c, s, StepRead(c, s, w))
  {
    var me := s.sessions[w];
    var s' := StepRead(c, s, w);
    assert Good(c, s, me);
    match Decide(c, me.status, s.fwd, s.bwd) {
      case Finish(t) =>
        FinishBacked(c, s, me.status, t);
        CallsStable(c, s, s');
      case CallOne(i, op) => KeepReadOne(c, s, w, i, op);
      case CallEach(idxs, op) => KeepReadEach(c, s, w, idxs, op);
      case _ => CallsStable(c, s, s');
    }
    SessionsStable(c, s, s', w);
  }

  lemma KeepReadOne(c: Config, s: State, w: nat, i: nat, op: BranchOp)
    requires c.Valid() && Inv(c, s) && w in s.sessions && s.sessions[w].pc == Looping
    requires Decide(c, s.sessions[w].status, s.fwd, s.bwd) == CallOne(i, op)
    ensures
      var s' := StepRead(c, s, w);
      && History(c, s')
      && Good(c, s', s'.sessions[w])
  {
    var me := s.sessions[w];
    assert Good(c, s, me);
    if c.tt == Saga {
      SagaCall(c, s, me.status, i, op);
    } else {
      TwoPhaseCall(c, s, me.status, i, op);
    }
    CallsStable(c, s, StepRead(c, s, w));
  }

  lemma KeepReadEach(c: Config, s: State, w: nat, idxs: seq<nat>, op: BranchOp)
    requires c.Valid() && Inv(c, s) && w in s.sessions && s.sessions[w].pc == Looping
    requires Decide(c, s.sessions[w].status, s.fwd, s.bwd) == CallEach(idxs, op)
    ensures
      var s' := StepRead(c, s, w);
      && History(c, s')
      && Good(c, s', s'.sessions[w])
  {
    var me := s.sessions[w];
    var s' := StepRead(c, s, w);
    assert Good(c, s, me);
    assert AtLoop(c, s, me.status);
    CallsStable(c, s, s');
    forall i | i in idxs
      ensures op == Action && me.status == Submitted
      ensures i < c.N() && InOrder(c, s', Call(i, Action)) && Directed(c, s', Call(i, Action))
    {
      MsgCall(c, s, me.status, idxs, op, i);
    }
    assert |idxs| > 0 by {
      var first := FirstUnfinished(DoneView(s.fwd));
      assert first in UnfinishedIn(c.steps[first], c.steps, DoneView(s.fwd));
    }
    assert idxs[0] in idxs;
  }

  /** Booking a reply for a call that was made keeps rows and history in line. */
  lemma BookKeeps(c: Config, s: State, call: Call, ok: bool)
    requires c.Valid() && Tables(c, s) && Outside(c, s) && History(c, s) && call in s.called
    ensures
      var s' := Book(c, s, call, ok);
      Tables(c, s') && Outside(c, s') && History(c, s') && Later(c, s, s')
  {
    assert InOrder(c, s, call);
    BookTables(c, s, call, ok);
    CallsStable(c, s, Book(c, s, call, ok));
  }

  lemma BookTables(c: Config, s: State, call: Call, ok: bool)
    requires c.Valid() && Tables(c, s) && InOrder(c, s, call)
    ensures Tables(c, Book(c, s, call, ok))
  {
  }

  lemma KeepAnswer(c: Config, s: State, w: nat, r: Reply)
    requires c.Valid() && Inv(c, s) && w in s.sessions && s.sessions[w].pc.Calling?
    ensures Inv(c, StepAnswer(c, s, w, r)) && Later(c, s, StepAnswer(c, s, w, r))
  {
    var me := s.sessions[w];
    assert Good(c, s, me);
    var s' := StepAnswer(c, s, w, r);
    if r == Success || r == Failure {
      KeepBooked(c, s, s', w, me.pc.call, r == Success);
    } else {
      KeepSession(c, s, s', w);
    }
  }

  /** A reply is booked, and the session moves on. */
  lemma KeepBooked(c: Config, s: State, s': State, w: nat, call: Call, ok: bool)
    requires c.Valid() && Inv(c, s) && call in s.called
    requires s' == Book(c, s, call, ok).(sessions := s'.sessions)
    requires forall v :: v in s'.sessions && v != w ==> v in s.sessions && s'.sessions[v] == s.sessions[v]
    requires w in s'.sessions ==> Good(c, s', s'.sessions[w])
    ensures Inv(c, s') && Later(c, s, s')
  {
    var s1 := Book(c, s, call, ok);
    BookKeeps(c, s, call, ok);
    CallsStable(c, s1, s');
    SessionsStable(c, s, s', w);
  }

  /** Only a session, or a pending submit, moves. */
  lemma KeepSession(c: Config, s: State, s': State, w: nat)
    requires c.Valid() && Inv(c, s)
    requires s' == s.(sessions := s'.sessions, submits := s'.submits) &&
      (c.backend == RedisBackend ==> s'.submits == {})
    requires forall v :: v in s'.sessions && v != w ==> v in s.sessions && s'.sessions[v] == s.sessions[v]
    requires w in s'.sessions ==> Good(c, s', s'.sessions[w])
    ensures Inv(c, s') && Later(c, s, s')
  {
    CallsStable(c, s, s');
    SessionsStable(c, s, s', w);
  }

  lemma KeepAsk(c: Config, s: State, w: nat, r: Reply)
    requires c.Valid() && Inv(c, s) && w in s.sessions && s.sessions[w].pc == Asking
    ensures Inv(c, StepAsk(s, w, r)) && Later(c, s, StepAsk(s, w, r))
  {
    assert Good(c, s, s.sessions[w]);
    KeepSession(c, s, StepAsk(s, w, r), w);
  }

  lemma KeepFan(c: Config, s: State, w: nat, i: nat, r: Reply)
    requires c.Valid() && Inv(c, s) && w in s.sessions && s.sessions[w].pc.Fanout? && i in s.sessions[w].pc.waiting
    ensures Inv(c, StepFan(c, s, w, i, r)) && Later(c, s, StepFan(c, s, w, i, r))
  {
    assert Good(c, s, s.sessions[w]);
    var s' := StepFan(c, s, w, i, r);
    if r == Success {
      KeepBooked(c, s, s', w, Call(i, Action), true);
    } else {
      KeepSession(c, s, s', w);
    }
  }

  lemma KeepWrite(c: Config, s: State, w: nat)
    requires c.Valid() && Inv(c, s) && w in s.sessions && s.sessions[w].pc.Deciding?
    ensures Inv(c, StepWrite(c, s, w)) && Later(c, s, StepWrite(c, s, w))
  {
    var me := s.sessions[w];
    assert Good(c, s, me);
    var s' := StepWrite(c, s, w);
    assert Edge(c, s.row, s'.row);
    CallsStable(c, s, s');
    SessionsStable(c, s, s', w);
  }

  /** Every event keeps the invariant and moves the row along an edge. */
  lemma StepKeeps(c: Config, s: State, e: Event)
    requires c.Valid() && Inv(c, s)
    ensures Step(c, s, e).Some? ==> Inv(c, Step(c, s, e).value) && Later(c, s, Step(c, s, e).value)
  {
    if Step(c, s, e).Some? {
      var s' := Step(c, s, e).value;
      match e {
        case Submit(w) =>
          if SubmitWrites(s.row) {
            KeepSubmit(c, s, w);
          }
        case SubmitRead(k) => KeepSession(c, s, s', 0);
        case SubmitWrite(k, w) => KeepSubmitWrite(c, s, k, w);
        case AbortRead(k) => KeepAbortRead(c, s, k);
        case AbortWrite(k) => KeepAbortWrite(c, s, k);
        case Lock(w) => KeepLock(c, s, w);
        case Timeout(w) =>
          assert Good(c, s, s.sessions[w]);
          KeepSession(c, s, s', w);
        case Read(w) => KeepRead(c, s, w);
        case Answer(w, r) =>
          if s.sessions[w].pc.Calling? {
            KeepAnswer(c, s, w, r);
          } else {
            KeepAsk(c, s, w, r);
          }
        case FanAnswer(w, i, r) => KeepFan(c, s, w, i, r);
        case Write(w) => KeepWrite(c, s, w);
        case Leave(w) => KeepSession(c, s, s', w);
      }
    }
  }

  lemma InitInv(c: Config)
    requires c.Valid()
    ensures Inv(c, Init(c))
  {
  }
}
