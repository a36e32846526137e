/** What can always still happen. From every reachable state one worker on its own, whatever the others
    have left behind, brings the row to its end; and each outside call does what it says it did. */
module CoordinatorRuns {
  import opened Types
  import opened Decisions
  import opened Coordinator
  import opened CoordinatorSafety
  import opened CoordinatorTheorems
  import opened CoordinatorHistory

  // ---------- one worker on its own ----------

  /** The events of one worker: no other worker moves, nobody submits, aborts or crashes. */
  predicate Own(w: nat, e: Event) {
    e == Lock(w) || e == Timeout(w) || e == Read(w) || e == Write(w)
    || (e.Answer? && e.w == w) || (e.FanAnswer? && e.w == w)
  }

  ghost predicate Alone(c: Config, s: State, w: nat, s': State)
    requires |s.fwd| == c.N()
  {
    exists events :: (forall e :: e in events ==> Own(w, e)) && Exec(c, s, events) == Some(s')
  }

  /** A point on such a run. */
  ghost predicate On(c: Config, s0: State, w: nat, s: State) {
    && c.Valid() && |s0.fwd| == c.N() && Alone(c, s0, w, s)
    && Reachable(c, s) && |s.fwd| == c.N() && |s.bwd| == c.N()
  }

  /** The other workers and callers are as they were. */
  predicate Others(s: State, s': State, w: nat) {
    && s'.submits == s.submits && s'.aborts == s.aborts && s'.abortOk == s.abortOk
    && s'.sessions - {w} == s.sessions - {w}
  }

  predicate Looped(s: State, w: nat, status: GlobalStatus) {
    w in s.sessions && s.sessions[w] == Session(status, Looping)
  }

  lemma Start(c: Config, s: State, w: nat)
    requires c.Valid() && Reachable(c, s)
    ensures On(c, s, w, s)
  {
    Widths(c, s);
    assert Exec(c, s, []) == Some(s);
  }

  lemma Go(c: Config, s0: State, w: nat, s: State, e: Event) returns (s': State)
    requires On(c, s0, w, s) && Own(w, e) && Step(c, s, e).Some?
    ensures Step(c, s, e) == Some(s') && On(c, s0, w, s')
  {
    s' := Step(c, s, e).value;
    var events :| (forall e :: e in events ==> Own(w, e)) && Exec(c, s0, events) == Some(s);
    ExecSnoc(c, s0, events, e);
    assert forall f :: f in events + [e] ==> Own(w, f);
    assert Exec(c, s0, events + [e]) == Some(s');
    ReachableStep(c, s, e);
    Widths(c, s');
  }

  lemma Widths(c: Config, s: State)
    requires c.Valid() && Reachable(c, s)
    ensures |s.fwd| == c.N() && |s.bwd| == c.N()
  {
    ReachableInv(c, s);
  }

  /** A worker is where its mode and status allow it to be. */
  lemma Placed(c: Config, s: State, w: nat)
    requires c.Valid() && Reachable(c, s) && w in s.sessions
    ensures WellPlaced(c, s.sessions[w])
  {
    ReachableInv(c, s);
    assert Good(c, s, s.sessions[w]);
  }

  lemma {:induction false} ReachableExec(c: Config, s: State, events: seq<Event>)
    requires Reachable(c, s) && |s.fwd| == c.N() && Exec(c, s, events).Some?
    ensures Reachable(c, Exec(c, s, events).value)
    decreases |events|
  {
    if events != [] {
      ReachableStep(c, s, events[0]);
      ReachableExec(c, Step(c, s, events[0]).value, events[1..]);
    }
  }

  lemma AloneReachable(c: Config, s: State, w: nat, s': State)
    requires Reachable(c, s) && |s.fwd| == c.N() && Alone(c, s, w, s')
    ensures Reachable(c, s')
  {
    var events :| (forall e :: e in events ==> Own(w, e)) && Exec(c, s, events) == Some(s');
    ReachableExec(c, s, events);
  }

  // ---------- calls ----------

  /** The branches that are not done. */
  function Open(rows: seq<BranchStatus>): set<nat> {
    set i: nat | i < |rows| && rows[i] != Done
  }

  lemma OpenShrinks(rows: seq<BranchStatus>, i: nat)
    requires i < |rows| && rows[i] != Done
    ensures Open(rows[i := Done]) < Open(rows)
  {
    assert i in Open(rows) && i !in Open(rows[i := Done]);
  }

  /** One call is decided on and acknowledged. */
  lemma OneAcked(c: Config, s0: State, w: nat, s: State, st: GlobalStatus, call: Call) returns (s': State)
    requires On(c, s0, w, s) && Looped(s, w, st) && c.tt != Msg
    requires Decide(c, st, s.fwd, s.bwd) == CallOne(call.index, call.op)
    ensures On(c, s0, w, s') && Looped(s', w, st) && Others(s, s', w) && s'.row == s.row
    ensures call.index < c.N() && call.op == if st == Submitted then c.FwdOp() else c.BwdOp()
    ensures s'.fwd == if st == Submitted then s.fwd[call.index := Done] else s.fwd
    ensures s'.bwd == if st == Submitted then s.bwd else s.bwd[call.index := Done]
    ensures s'.refused == s.refused
  {
    var mid := Go(c, s0, w, s, Read(w));
    assert mid.sessions[w] == Session(st, Calling(call));
    Placed(c, s, w);
    Placed(c, mid, w);
    s' := Go(c, s0, w, mid, Answer(w, Success));
    assert c.FwdOp() != c.BwdOp();
  }

  /** A worker writes the status it has decided on. */
  lemma Ends(c: Config, s0: State, w: nat, s: State, to: GlobalStatus) returns (s': State)
    requires On(c, s0, w, s) && Looped(s, w, s.row) && to.IsFinal()
    requires Decide(c, s.row, s.fwd, s.bwd) == Finish(to)
    ensures On(c, s0, w, s') && w !in s'.sessions && Others(s, s', w) && s'.row == to
    ensures s'.fwd == s.fwd && s'.bwd == s.bwd && s'.refused == s.refused
  {
    var mid := Go(c, s0, w, s, Read(w));
    assert mid.sessions[w] == Session(s.row, Deciding(to));
    s' := Go(c, s0, w, mid, Write(w));
  }

  /** A worker writes a status that is not final, and goes on with it. */
  lemma Moves(c: Config, s0: State, w: nat, s: State, to: GlobalStatus) returns (s': State)
    requires On(c, s0, w, s) && w in s.sessions && s.sessions[w] == Session(s.row, Deciding(to)) && !to.IsFinal()
    ensures On(c, s0, w, s') && Others(s, s', w) && s'.row == to && w in s'.sessions && s'.sessions[w] == Body(c, to)
    ensures s'.refused == s.refused
  {
    s' := Go(c, s0, w, s, Write(w));
  }

  // ---------- back ----------

  lemma {:induction false} DriveBack(c: Config, s0: State, w: nat, s: State) returns (s': State)
    requires On(c, s0, w, s) && Looped(s, w, Aborting) && s.row == Aborting
    ensures On(c, s0, w, s') && w !in s'.sessions && Others(s, s', w) && s'.row == Failed && s'.refused == s.refused
    decreases Open(s.bwd)
  {
    match Decide(c, Aborting, s.fwd, s.bwd) {
      case Finish(to) => s' := Ends(c, s0, w, s, Failed);
      case CallOne(i, op) =>
        var mid := OneAcked(c, s0, w, s, Aborting, Call(i, op));
        OpenShrinks(s.bwd, i);
        s' := DriveBack(c, s0, w, mid);
      case _ => s' := s;
    }
  }

  // ---------- forward ----------

  predicate SomeRefused(c: Config, s: State) {
    c.tt == Saga && exists i :: 0 <= i < |s.fwd| && s.fwd[i] == Refused
  }

  /** A refused action turns the saga back, and the rollback runs to its end. */
  lemma TurnsBack(c: Config, s0: State, w: nat, s: State) returns (s': State)
    requires On(c, s0, w, s) && Looped(s, w, Submitted) && s.row == Submitted
    requires Decide(c, Submitted, s.fwd, s.bwd) == Finish(Aborting)
    ensures On(c, s0, w, s') && w !in s'.sessions && Others(s, s', w) && s'.row == Failed
  {
    Placed(c, s, w);
    var mid := Go(c, s0, w, s, Read(w));
    assert mid.sessions[w] == Session(Submitted, Deciding(Aborting));
    var back := Moves(c, s0, w, mid, Aborting);
    s' := DriveBack(c, s0, w, back);
  }

  lemma {:induction false} DriveForward(c: Config, s0: State, w: nat, s: State) returns (s': State)
    requires On(c, s0, w, s) && Looped(s, w, Submitted) && s.row == Submitted && c.tt != Msg
    ensures On(c, s0, w, s') && w !in s'.sessions && Others(s, s', w)
    ensures s'.row == if SomeRefused(c, s) then Failed else Succeed
    decreases Open(s.fwd)
  {
    var first := FirstUnfinished(s.fwd);
    match Decide(c, Submitted, s.fwd, s.bwd) {
      case Finish(to) =>
        if to == Succeed {
          s' := Ends(c, s0, w, s, Succeed);
        } else {
          assert s.fwd[first] == Refused;
          s' := TurnsBack(c, s0, w, s);
        }
      case CallOne(i, op) =>
        var mid := OneAcked(c, s0, w, s, Submitted, Call(i, op));
        OpenShrinks(s.fwd, i);
        RefusedStays(c, s, mid, i);
        s' := DriveForward(c, s0, w, mid);
      case _ => s' := s;
    }
  }

  lemma RefusedStays(c: Config, s: State, s': State, i: nat)
    requires i < |s.fwd| && s'.fwd == s.fwd[i := Done] && (c.tt == Saga ==> s.fwd[i] == Pending)
    ensures SomeRefused(c, s') <==> SomeRefused(c, s)
  {
    if SomeRefused(c, s) {
      var j :| 0 <= j < |s.fwd| && s.fwd[j] == Refused;
      assert s'.fwd[j] == Refused;
    }
    if SomeRefused(c, s') {
      var j :| 0 <= j < |s'.fwd| && s'.fwd[j] == Refused;
      assert s.fwd[j] == Refused;
    }
  }

  // ---------- a message ----------

  /** Every branch the worker waits for is acknowledged. */
  lemma {:induction false} FanAll(c: Config, s0: State, w: nat, s: State, waiting: set<nat>) returns (s': State)
    requires On(c, s0, w, s) && w in s.sessions && waiting != {}
    requires s.sessions[w] == Session(Submitted, Fanout(waiting, true))
    ensures On(c, s0, w, s') && Looped(s', w, Submitted) && Others(s, s', w) && s'.row == s.row
    ensures |s'.fwd| == |s.fwd|
    ensures forall i :: 0 <= i < |s.fwd| ==> s'.fwd[i] == if i in waiting then Done else s.fwd[i]
    decreases waiting
  {
    Placed(c, s, w);
    var i :| i in waiting;
    var mid := Go(c, s0, w, s, FanAnswer(w, i, Success));
    if waiting == {i} {
      s' := mid;
    } else {
      assert waiting - {i} != {};
      s' := FanAll(c, s0, w, mid, waiting - {i});
    }
  }

  lemma FanStep(c: Config, s0: State, w: nat, s: State, idxs: seq<nat>) returns (s': State)
    requires On(c, s0, w, s) && Looped(s, w, Submitted)
    requires c.tt == Msg && MsgNext(Submitted, c.steps, DoneView(s.fwd)) == CallEach(idxs, Action)
    ensures On(c, s0, w, s') && Looped(s', w, Submitted) && Others(s, s', w) && s'.row == s.row
    ensures Open(s'.fwd) < Open(s.fwd)
  {
    var first := FirstUnfinished(DoneView(s.fwd));
    assert first in idxs && first in Open(s.fwd);
    var mid := Go(c, s0, w, s, Read(w));
    assert mid.sessions[w] == Session(Submitted, Fanout(Members(idxs), true));
    s' := FanAll(c, s0, w, mid, Members(idxs));
    assert first !in Open(s'.fwd);
  }

  lemma {:induction false} DriveMessage(c: Config, s0: State, w: nat, s: State) returns (s': State)
    requires On(c, s0, w, s) && Looped(s, w, Submitted) && s.row == Submitted && c.tt == Msg
    ensures On(c, s0, w, s') && w !in s'.sessions && Others(s, s', w) && s'.row == Succeed
    decreases Open(s.fwd)
  {
    match MsgNext(Submitted, c.steps, DoneView(s.fwd)) {
      case CallEach(idxs, op) =>
        var mid := FanStep(c, s0, w, s, idxs);
        s' := DriveMessage(c, s0, w, mid);
      case Finish(to) => s' := Ends(c, s0, w, s, Succeed);
      case _ => s' := s;
    }
  }

  // ---------- from any state ----------

  /** Where a running row ends if nobody interferes. */
  function EndOf(c: Config, s: State): GlobalStatus {
    if s.row == Submitted && !SomeRefused(c, s) then Succeed
    else if s.row == Aborting then RollbackEnd(c)
    else Failed
  }

  lemma Drives(c: Config, s0: State, w: nat, s: State) returns (s': State)
    requires On(c, s0, w, s) && (s.row == Submitted || s.row == Aborting) && Looped(s, w, s.row)
    ensures On(c, s0, w, s') && w !in s'.sessions && Others(s, s', w) && s'.row == EndOf(c, s)
  {
    Placed(c, s, w);
    if s.row == Aborting {
      s' := DriveBack(c, s0, w, s);
    } else if c.tt == Msg {
      s' := DriveMessage(c, s0, w, s);
    } else {
      s' := DriveForward(c, s0, w, s);
    }
  }

  /** An empty branch list is finished at once. */
  lemma DrivesEmpty(c: Config, s0: State, w: nat, s: State) returns (s': State)
    requires On(c, s0, w, s) && (s.row == Submitted || s.row == Aborting) && c.N() == 0
    requires w in s.sessions && s.sessions[w] == Body(c, s.row)
    ensures On(c, s0, w, s') && w !in s'.sessions && Others(s, s', w) && s'.row == EndOf(c, s)
  {
    s' := Go(c, s0, w, s, Write(w));
  }

  lemma DrivesBody(c: Config, s0: State, w: nat, s: State) returns (s': State)
    requires On(c, s0, w, s) && (s.row == Submitted || s.row == Aborting)
    requires w in s.sessions && s.sessions[w] == Body(c, s.row)
    ensures On(c, s0, w, s') && w !in s'.sessions && Others(s, s', w) && s'.row == EndOf(c, s)
  {
    if c.N() == 0 {
      s' := DrivesEmpty(c, s0, w, s);
    } else {
      s' := Drives(c, s0, w, s);
    }
  }

  /** In every reachable state any worker that is not there yet can lock a running row and bring it to
      its end on its own: a submitted one to Succeed, or to Failed where an action of a saga has been
      refused; an aborting one to Failed, or to Succeed where a saga or message has no branch. With the
      promises of CoordinatorTheorems, the end has every call of its direction answered. */
  lemma RunningRowEnds(c: Config, s: State, w: nat) returns (s': State)
    requires c.Valid() && Reachable(c, s) && |s.fwd| == c.N() && w !in s.sessions
    requires s.row == Submitted || s.row == Aborting
    ensures Reachable(c, s') && Alone(c, s, w, s') && Others(s, s', w) && w !in s'.sessions
    ensures s.row == Submitted ==>
      s'.row == if c.tt == Saga && exists i :: 0 <= i < c.N() && s.fwd[i] == Refused then Failed else Succeed
    ensures s.row == Aborting ==> s'.row == if c.N() > 0 || c.tt == Tcc || c.tt == Xa then Failed else Succeed
  {
    Start(c, s, w);
    var locked := Go(c, s, w, s, Lock(w));
    s' := DrivesBody(c, s, w, locked);
    AloneReachable(c, s, w, s');
  }

  /** A prepared TCC or XA row that nobody submits can be timed out and undone. */
  lemma PreparedTimesOut(c: Config, s: State, w: nat) returns (s': State)
    requires c.Valid() && (c.tt == Tcc || c.tt == Xa) && Reachable(c, s) && |s.fwd| == c.N() && w !in s.sessions
    requires s.row == Prepared
    ensures Reachable(c, s') && Alone(c, s, w, s') && Others(s, s', w) && s'.row == Failed
  {
    Start(c, s, w);
    var locked := Go(c, s, w, s, Lock(w));
    assert locked.sessions[w] == Session(Prepared, Timing);
    var late := Go(c, s, w, locked, Timeout(w));
    var aborting := Moves(c, s, w, late, Aborting);
    s' := DrivesBody(c, s, w, aborting);
    AloneReachable(c, s, w, s');
  }

  /** A worker has asked about a prepared message. Success takes the message all the way to Succeed,
      Failure to Failed with nothing called; any other reply leaves everything as it was. */
  lemma QueryDecides(c: Config, s: State, w: nat, r: Reply) returns (s': State)
    requires c.Valid() && c.tt == Msg && Reachable(c, s) && |s.fwd| == c.N()
    requires w in s.sessions && s.sessions[w].pc == Asking && s.row == Prepared
    ensures Reachable(c, s') && Alone(c, s, w, s') && Others(s, s', w) && w !in s'.sessions
    ensures r == Success ==> s'.row == Succeed
    ensures r == Failure ==> s'.row == Failed && s'.called == s.called
    ensures r == Ongoing || r == Unknown ==> s' == s.(sessions := s.sessions - {w})
  {
    Start(c, s, w);
    Placed(c, s, w);
    s' := Go(c, s, w, s, Answer(w, r));
    if r == Success {
      var moved := Moves(c, s, w, s', Submitted);
      s' := DrivesBody(c, s, w, moved);
    } else if r == Failure {
      s' := Go(c, s, w, s', Write(w));
    }
    AloneReachable(c, s, w, s');
  }

  /** Every prepared message can be asked about. */
  lemma PreparedIsAsked(c: Config, s: State, w: nat) returns (s': State)
    requires c.Valid() && c.tt == Msg && Reachable(c, s) && |s.fwd| == c.N() && w !in s.sessions && s.row == Prepared
    ensures Reachable(c, s') && Step(c, s, Lock(w)) == Some(s') && |s'.fwd| == c.N()
    ensures s'.row == Prepared && w in s'.sessions && s'.sessions[w].pc == Asking
  {
    ReachableStep(c, s, Lock(w));
    s' := Step(c, s, Lock(w)).value;
  }

  // ---------- replies ----------

  /** A refused action: the same worker turns the saga back and undoes it to the end. */
  lemma RefusalRollsBack(c: Config, s: State, w: nat, i: nat) returns (s': State)
    requires c.Valid() && c.tt == Saga && Reachable(c, s) && |s.fwd| == c.N()
    requires w in s.sessions && s.sessions[w].pc == Calling(Call(i, Action)) && s.row == Submitted
    ensures Reachable(c, s') && Alone(c, s, w, s') && Others(s, s', w) && w !in s'.sessions
    ensures s'.row == Failed && Call(i, Action) in s'.refused
  {
    Start(c, s, w);
    Placed(c, s, w);
    var refused := Go(c, s, w, s, Answer(w, Failure));
    var back := Moves(c, s, w, refused, Aborting);
    s' := DriveBack(c, s, w, back);
    AloneReachable(c, s, w, s');
  }

  /** Any other reply but Success ends the round, and only a definite refusal leaves a trace: the row of
      that very branch. The status stays as it is. */
  lemma OtherRepliesEndTheRound(c: Config, s: State, w: nat, call: Call, r: Reply)
    requires c.Valid() && Reachable(c, s) && |s.fwd| == c.N() && w in s.sessions && s.sessions[w].pc == Calling(call)
    requires r != Success && !(c.tt == Saga && call.op == Action && r == Failure)
    ensures Step(c, s, Answer(w, r)).Some? && call.index < |s.fwd| == |s.bwd|
    ensures
      var s' := Step(c, s, Answer(w, r)).value;
      && s'.sessions == s.sessions - {w} && s'.row == s.row && s'.acked == s.acked
      && (r != Failure ==> s' == s.(sessions := s.sessions - {w}))
      && (r == Failure ==>
            s' == s.(sessions := s.sessions - {w}, refused := s.refused + {call}, fwd := s'.fwd, bwd := s'.bwd)
            && if s.sessions[w].status == Submitted
               then s'.fwd == s.fwd[call.index := Refused] && s'.bwd == s.bwd
               else s'.bwd == s.bwd[call.index := Refused] && s'.fwd == s.fwd)
  {
    Placed(c, s, w);
    Widths(c, s);
    assert c.FwdOp() != c.BwdOp();
  }

  /** A branch of a message step that is not acknowledged ends the round once the others have answered;
      nothing is booked for it, and the status stays. */
  lemma MissEndsTheRound(c: Config, s: State, w: nat, i: nat, r: Reply)
    requires |s.fwd| == c.N() && w in s.sessions && s.sessions[w].pc.Fanout? && i in s.sessions[w].pc.waiting
    requires r != Success
    ensures
      var s', waiting := Step(c, s, FanAnswer(w, i, r)).value, s.sessions[w].pc.waiting - {i};
      s' == s.(sessions := if waiting == {} then s.sessions - {w}
                           else s.sessions[w := Session(s.sessions[w].status, Fanout(waiting, false))])
  {
  }

  predicate Missed(s: State, w: nat) {
    w in s.sessions ==> s.sessions[w].pc.Fanout? && !s.sessions[w].pc.allOk
  }

  /** After such a miss this worker makes no further call in any run, until it locks the row again. */
  lemma {:induction false} MissedStays(c: Config, s: State, w: nat, events: seq<Event>)
    requires |s.fwd| == c.N() && Missed(s, w) && Exec(c, s, events).Some?
    requires forall e :: e in events ==> e != Lock(w) && e != Submit(w) && !(e.SubmitWrite? && e.w == w)
    ensures Missed(Exec(c, s, events).value, w)
    decreases |events|
  {
    if events != [] {
      StepKeepsWidth(c, s, events[0]);
      MissedStep(c, s, w, events[0]);
      MissedStays(c, Step(c, s, events[0]).value, w, events[1..]);
    }
  }

  lemma MissedStep(c: Config, s: State, w: nat, e: Event)
    requires |s.fwd| == c.N() && Missed(s, w) && Step(c, s, e).Some?
    requires e != Lock(w) && e != Submit(w) && !(e.SubmitWrite? && e.w == w)
    ensures Missed(Step(c, s, e).value, w)
  {
    match e
    case Read(v) => ReadMoves(c, s, v);
    case _ =>
  }

  // ---------- writing the status ----------

  /** Whatever the backend, writing a status moves the row exactly if it is in the status the worker
      holds. A worker that lost the comparison is gone, and so is one that wrote a final status. */
  lemma WriteIsCompareWrite(c: Config, s: State, w: nat)
    requires c.Valid() && Reachable(c, s) && |s.fwd| == c.N() && w in s.sessions && s.sessions[w].pc.Deciding?
    ensures Step(c, s, Write(w)).Some?
    ensures
      var s', me := Step(c, s, Write(w)).value, s.sessions[w];
      && s'.row == (if s.row == me.status then me.pc.to else s.row)
      && s' == s.(row := s'.row, sessions := s'.sessions)
      && s'.sessions - {w} == s.sessions - {w}
      && (w in s'.sessions <==> s.row == me.status && !me.pc.to.IsFinal())
      && (w in s'.sessions ==> s'.sessions[w].status == me.pc.to)
  {
    ReachableInv(c, s);
    assert Good(c, s, s.sessions[w]);
  }

  // ---------- outside calls ----------

  lemma SubmitMoves(c: Config, s: State, k: nat, w: nat) returns (s': State)
    requires c.Valid() && Reachable(c, s) && |s.fwd| == c.N() && s.row == Prepared
    requires k !in s.submits && w !in s.sessions
    ensures Exec(c, s, if c.backend == RedisBackend then [Submit(w)] else [SubmitRead(k), SubmitWrite(k, w)])
         == Some(s')
    ensures Reachable(c, s') && s'.row == Submitted && |s'.fwd| == c.N() && s'.submits == s.submits
    ensures if c.inlineDrive then w in s'.sessions && s'.sessions[w] == Body(c, Submitted)
            else w !in s'.sessions
  {
    if c.backend == RedisBackend {
      ReachableStep(c, s, Submit(w));
      s' := Step(c, s, Submit(w)).value;
      assert [Submit(w)][1..] == [];
    } else {
      ReachableStep(c, s, SubmitRead(k));
      var read := Step(c, s, SubmitRead(k)).value;
      ReachableStep(c, read, SubmitWrite(k, w));
      s' := Step(c, read, SubmitWrite(k, w)).value;
      assert [SubmitRead(k), SubmitWrite(k, w)][1..] == [SubmitWrite(k, w)] && [SubmitWrite(k, w)][1..] == [];
      assert Exec(c, read, [SubmitWrite(k, w)]) == Some(s');
    }
  }

  /** Submitting a prepared transaction moves it, in one step or two, and whoever drives it brings it to
      Succeed: the submitter's own worker where there is one, any other worker otherwise. */
  lemma SubmitLeadsToSucceed(c: Config, s: State, k: nat, w: nat) returns (submitted: State, s': State)
    requires c.Valid() && Reachable(c, s) && |s.fwd| == c.N() && s.row == Prepared
    requires k !in s.submits && w !in s.sessions
    ensures Exec(c, s, if c.backend == RedisBackend then [Submit(w)] else [SubmitRead(k), SubmitWrite(k, w)])
         == Some(submitted)
    ensures submitted.row == Submitted && |submitted.fwd| == c.N() && submitted.submits == s.submits
    ensures w in submitted.sessions <==> c.inlineDrive
    ensures Alone(c, submitted, w, s') && Reachable(c, s') && s'.row == Succeed
  {
    submitted := SubmitMoves(c, s, k, w);
    assert c.tt != Saga by {
      ReachableInv(c, s);
    }
    Start(c, submitted, w);
    if c.inlineDrive {
      s' := DrivesBody(c, submitted, w, submitted);
      AloneReachable(c, submitted, w, s');
    } else {
      s' := RunningRowEnds(c, submitted, w);
    }
  }

  /** Submitting anything but a prepared transaction leaves the row as it is: a repeated submit is
      harmless. */
  lemma SubmitOnlyMovesPrepared(c: Config, s: State, e: Event)
    requires |s.fwd| == c.N() && s.row != Prepared && Step(c, s, e).Some?
    requires e.Submit? || e.SubmitRead? || e.SubmitWrite?
    ensures Step(c, s, e).value.row == s.row
    ensures !e.SubmitWrite? ==> Step(c, s, e).value == s
  {
  }

  /** An abort with nothing in between: refused on a final status and on a TCC, XA or message that was
      submitted, changing nothing; Ok on a row that is aborting already; and otherwise the row aborts,
      and the caller is told so. */
  lemma AbortAnswers(c: Config, s: State, k: nat)
    requires c.Valid() && Reachable(c, s) && |s.fwd| == c.N() && k !in s.aborts
    ensures Step(c, s, AbortRead(k)).Some?
    ensures
      var read := Step(c, s, AbortRead(k)).value;
      && |read.fwd| == c.N()
      && (s.row.IsFinal() || (s.row == Submitted && c.tt != Saga) ==> read == s)
      && (s.row == Aborting ==> read == s.(abortOk := true))
      && (s.row == Prepared || (s.row == Submitted && c.tt == Saga) ==>
            Step(c, read, AbortWrite(k)) == Some(s.(row := Aborting, abortOk := true)))
  {
    ReachableInv(c, s);
    var read := Step(c, s, AbortRead(k)).value;
    if AbortGuard(s.row, c.tt) == TryWrite {
      assert read.aborts - {k} == s.aborts;
    }
  }

  /** An abort whose row has moved since it was read changes nothing but its own place. */
  lemma LostAbortChangesNothing(c: Config, s: State, k: nat)
    requires c.Valid() && Reachable(c, s) && |s.fwd| == c.N() && k in s.aborts && s.aborts[k] != s.row
    ensures Step(c, s, AbortWrite(k)) == Some(s.(aborts := s.aborts - {k}))
  {
    ReachableInv(c, s);
    ContestedMatchesOutsideWriters(s.aborts[k], c.tt);
  }
}
