/** One round of the message driver over branch rows: the query while the message is prepared, then
    step after step, all unfinished branches of a step at once. It is a run of the step machine in
    Coordinator. A branch is found by its number alone, which may be a fan-out number. */
module MessageRound {
  import opened Types
  import opened Decisions
  import opened Coordinator
  import opened Driver
  import opened Rounds

  // ---------- rows ----------

  predicate Delivered(rows: seq<BranchRow>, id: string) {
    exists k :: 0 <= k < |rows| && rows[k].id == id && rows[k].op == Action && rows[k].status == BranchStatus.Done
  }

  /** Every branch has its own number and its own action row. */
  predicate MsgTable(rows: seq<BranchRow>, ids: seq<string>) {
    && (forall i, j :: 0 <= i < j < |ids| ==> ids[i] != ids[j])
    && (forall i :: 0 <= i < |ids| ==> HasRow(rows, ids[i], Action))
  }

  function StatesOf(rows: seq<BranchRow>, ids: seq<string>): (s: seq<BranchStatus>)
    ensures |s| == |ids|
    ensures forall i :: 0 <= i < |ids| ==> s[i] == if Delivered(rows, ids[i]) then Done else Pending
  {
    seq(|ids|, i requires 0 <= i < |ids| => if Delivered(rows, ids[i]) then Done else Pending)
  }

  lemma DeliveredAfterSet(rows: seq<BranchRow>, ids: seq<string>, i: nat, j: nat)
    requires MsgTable(rows, ids) && i < |ids| && j < |ids|
    ensures Delivered(SetStatus(rows, ids[i], Action, Done), ids[j]) <==> Delivered(rows, ids[j]) || i == j
    ensures MsgTable(SetStatus(rows, ids[i], Action, Done), ids)
  {
    var rows' := SetStatus(rows, ids[i], Action, Done);
    forall k | 0 <= k < |ids|
      ensures HasRow(rows', ids[k], Action)
    {
      var m :| 0 <= m < |rows| && rows[m].id == ids[k] && rows[m].op == Action;
      assert rows'[m].id == ids[k] && rows'[m].op == Action;
    }
    if Delivered(rows, ids[j]) {
      var m :| 0 <= m < |rows| && rows[m].id == ids[j] && rows[m].op == Action && rows[m].status == Done;
      assert rows'[m].id == ids[j] && rows'[m].op == Action && rows'[m].status == Done;
    }
    if i == j {
      var m :| 0 <= m < |rows| && rows[m].id == ids[i] && rows[m].op == Action;
      assert rows'[m].id == ids[i] && rows'[m].op == Action && rows'[m].status == Done;
    }
  }

  // ---------- the worker and the step machine ----------

  function MsgConfig(steps: seq<nat>): (c: Config)
    ensures c.N() == |steps| && c.tt == Msg && !c.Shortcut()
  {
    Config(Msg, SqlBackend, false, false, steps)
  }

  /** The machine state that shows these rows. */
  ghost predicate MsgAt(c: Config, s: State, row: GlobalStatus, rows: seq<BranchRow>, ids: seq<string>,
                        me: Option<Session>)
  {
    && Worker(c, s, row, me)
    && |ids| == c.N()
    && DoneView(s.fwd) == StatesOf(rows, ids)
  }

  function Waiting(waiting: set<nat>, allOk: bool): Option<Session> {
    if waiting != {} then Some(Session(Submitted, Fanout(waiting, allOk)))
    else if allOk then Some(Session(Submitted, Looping))
    else None
  }

  lemma ShowsDelivery(fwd: seq<BranchStatus>, rows: seq<BranchRow>, ids: seq<string>, i: nat)
    requires MsgTable(rows, ids) && i < |ids| && DoneView(fwd) == StatesOf(rows, ids)
    ensures
      var rows' := SetStatus(rows, ids[i], Action, Done);
      MsgTable(rows', ids) && DoneView(fwd[i := Done]) == StatesOf(rows', ids)
  {
    assert |fwd| == |DoneView(fwd)| == |ids|;
    DeliveredAfterSet(rows, ids, i, i);
    forall j | 0 <= j < |ids|
      ensures DoneView(fwd[i := Done])[j] == StatesOf(SetStatus(rows, ids[i], Action, Done), ids)[j]
    {
      DeliveredAfterSet(rows, ids, i, j);
      assert DoneView(fwd)[j] == StatesOf(rows, ids)[j];
    }
  }

  /** One branch has answered. */
  lemma FanSteps(c: Config, s: State, row: GlobalStatus, rows: seq<BranchRow>, ids: seq<string>, waiting: set<nat>,
                 allOk: bool, i: nat, r: Reply)
    returns (s': State)
    requires c.tt == Msg && MsgAt(c, s, row, rows, ids, Waiting(waiting, allOk)) && MsgTable(rows, ids)
    requires i in waiting && i < |ids|
    ensures
      var rows' := if r == Success then SetStatus(rows, ids[i], Action, Done) else rows;
      && Exec(c, s, [FanAnswer(0, i, r)]) == Some(s') && s'.called == s.called
      && MsgAt(c, s', row, rows', ids, Waiting(waiting - {i}, allOk && r == Success)) && MsgTable(rows', ids)
  {
    ExecOne(c, s, FanAnswer(0, i, r));
    s' := StepFan(c, s, 0, i, r);
    if r == Success {
      ShowsDelivery(s.fwd, rows, ids, i);
    }
  }

  /** The branches of one step are called at once and answer in any order; `answers(k)` is the k-th reply
      of the round. */
  method FanOut(store: Store, ids: seq<string>, indices: set<nat>, answers: nat -> Reply, before: nat, ghost c: Config,
                ghost s: State)
    returns (allOk: bool, ghost tail: seq<Event>, ghost s': State)
    requires c.tt == Msg && MsgTable(store.rows, ids) && indices != {} && forall i :: i in indices ==> i < |ids|
    requires MsgAt(c, s, store.status, store.rows, ids, Waiting(indices, true))
    modifies store`rows
    ensures MsgTable(store.rows, ids)
    ensures Exec(c, s, tail) == Some(s') && s'.called == s.called
    ensures MsgAt(c, s', store.status, store.rows, ids, Waiting({}, allOk))
    ensures (forall k :: answers(k) == Success) ==> allOk
    ensures forall i :: 0 <= i < |ids| && Delivered(old(store.rows), ids[i]) ==> Delivered(store.rows, ids[i])
    ensures allOk ==> forall i :: i in indices ==> Delivered(store.rows, ids[i])
  {
    var waiting := indices;
    var heard := before;
    allOk, tail, s' := true, [], s;
    while waiting != {}
      invariant waiting <= indices
      invariant MsgTable(store.rows, ids)
      invariant Exec(c, s, tail) == Some(s') && s'.called == s.called
      invariant MsgAt(c, s', store.status, store.rows, ids, Waiting(waiting, allOk))
      invariant (forall k :: answers(k) == Success) ==> allOk
      invariant forall i :: 0 <= i < |ids| && Delivered(old(store.rows), ids[i]) ==> Delivered(store.rows, ids[i])
      invariant allOk ==> forall i :: i in indices && i !in waiting ==> Delivered(store.rows, ids[i])
      decreases waiting
    {
      var i :| i in waiting;
      var r := answers(heard);
      ghost var rows := store.rows;
      ghost var next := FanSteps(c, s', store.status, store.rows, ids, waiting, allOk, i, r);
      if r == Success {
        store.rows := SetStatus(store.rows, ids[i], Action, Done);
      } else {
        allOk := false;
      }
      forall j | 0 <= j < |ids|
        ensures Delivered(store.rows, ids[j]) <==> Delivered(rows, ids[j]) || (i == j && r == Success)
      {
        DeliveredAfterSet(rows, ids, i, j);
      }
      ExecAppend(c, s, tail, [FanAnswer(0, i, r)]);
      waiting, heard, tail, s' := waiting - {i}, heard + 1, tail + [FanAnswer(0, i, r)], next;
    }
  }

  // ---------- the round ----------

  /** The branches that are still to be delivered. */
  function Undelivered(rows: seq<BranchRow>, ids: seq<string>): set<nat> {
    set i: nat | i < |ids| && !Delivered(rows, ids[i])
  }

  predicate CallsIn(calls: set<Call>, open: set<nat>) {
    forall call :: call in calls ==> call.op == Action && call.index in open
  }

  predicate NoneIn(calls: set<Call>, open: set<nat>) {
    forall call :: call in calls ==> call.index !in open
  }

  /** Calling a step is one step of the machine. */
  lemma CallStep(c: Config, s: State, row: GlobalStatus, rows: seq<BranchRow>, ids: seq<string>, indices: seq<nat>)
    returns (s': State)
    requires c.tt == Msg && MsgAt(c, s, row, rows, ids, Some(Session(Submitted, Looping)))
    requires MsgNext(Submitted, c.steps, StatesOf(rows, ids)) == CallEach(indices, Action)
    ensures indices != [] && forall i :: i in indices ==> i < |ids| && !Delivered(rows, ids[i])
    ensures Exec(c, s, [Read(0)]) == Some(s')
    ensures s'.called == s.called + set i | i in indices :: Call(i, Action)
    ensures MsgAt(c, s', row, rows, ids, Waiting(Members(indices), true))
  {
    var first := FirstUnfinished(StatesOf(rows, ids));
    assert first in indices;
    assert first in Members(indices);
    ExecOne(c, s, Read(0));
    s' := StepRead(c, s, 0);
  }

  /** One turn of the loop that calls a step. Where every branch answers Success, it goes on. */
  method MsgStep(store: Store, ids: seq<string>, indices: seq<nat>, answers: nat -> Reply, before: nat, ghost c: Config,
                 ghost s: State)
    returns (goOn: bool, made: set<Call>, ghost tail: seq<Event>, ghost s': State)
    requires c.tt == Msg && MsgTable(store.rows, ids)
    requires MsgAt(c, s, store.status, store.rows, ids, Some(Session(Submitted, Looping)))
    requires MsgNext(Submitted, c.steps, StatesOf(store.rows, ids)) == CallEach(indices, Action)
    modifies store`rows
    ensures MsgTable(store.rows, ids)
    ensures Exec(c, s, tail) == Some(s') && s'.called == s.called + made
    ensures MsgAt(c, s', store.status, store.rows, ids, if goOn then Some(Session(Submitted, Looping)) else None)
    ensures made != {} && CallsIn(made, Undelivered(old(store.rows), ids))
    ensures Undelivered(store.rows, ids) <= Undelivered(old(store.rows), ids)
    ensures goOn ==> NoneIn(made, Undelivered(store.rows, ids))
    ensures (forall k :: answers(k) == Success) ==> goOn
  {
    s' := CallStep(c, s, store.status, store.rows, ids, indices);
    made := set i | i in indices :: Call(i, Action);
    assert Call(indices[0], Action) in made;
    ghost var more;
    goOn, more, s' := FanOut(store, ids, Members(indices), answers, before, c, s');
    ExecAppend(c, s, [Read(0)], more);
    tail := [Read(0)] + more;
  }

  /** One that finishes. */
  method MsgFinish(store: Store, ids: seq<string>, status: GlobalStatus, to: GlobalStatus, lands: bool, ghost c: Config,
                   ghost s: State)
    returns (ghost tail: seq<Event>, ghost s': State)
    requires store.tt == Msg && c.tt == Msg && !c.Shortcut() && status != to && to.IsFinal()
    requires MsgAt(c, s, store.status, store.rows, ids, Some(Session(status, Looping)))
    requires Decide(c, status, s.fwd, s.bwd) == Finish(to)
    modifies store`status
    ensures Exec(c, s, tail) == Some(s') && s'.called == s.called
    ensures MsgAt(c, s', store.status, store.rows, ids, None)
    ensures old(store.status) == status && (status == Submitted || status == Aborting) ==> store.status == to
  {
    s' := FinishSteps(c, s, store.status, status, to);
    ghost var more;
    var ok;
    ok, more, s' := Rounds.Transition(store, status, to, lands, c, s');
    ExecAppend(c, s, [Read(0)], more);
    tail := [Read(0)] + more;
  }

  lemma StillOpen(was: set<nat>, now: set<nat>, made: set<Call>, goOn: bool)
    requires now <= was && CallsIn(made, was) && made != {} && (goOn ==> NoneIn(made, now))
    ensures goOn ==> |now| < |was|
  {
    if goOn {
      var call :| call in made;
      assert now <= was - {call.index};
      Fewer(now, was - {call.index});
    }
  }

  lemma Fewer(a: set<nat>, b: set<nat>)
    requires a <= b
    ensures |a| <= |b|
  {
    assert b == a + (b - a);
  }

  /** One turn of the loop, undisturbed since the last: finish, or call a step. */
  method MsgTurn(store: Store, ids: seq<string>, steps: seq<nat>, status: GlobalStatus, answers: nat -> Reply,
                 before: nat, lands: bool, ghost s: State)
    returns (goOn: bool, made: set<Call>, ghost tail: seq<Event>, ghost s': State)
    requires store.tt == Msg && |ids| == |steps| && MsgTable(store.rows, ids)
    requires (status == Submitted || status == Aborting) && store.status == status
    requires MsgAt(MsgConfig(steps), s, status, store.rows, ids, Some(Session(status, Looping)))
    modifies store
    ensures MsgTable(store.rows, ids)
    ensures Exec(MsgConfig(steps), s, tail) == Some(s') && s'.called == s.called + made
    ensures MsgAt(MsgConfig(steps), s', store.status, store.rows, ids,
                  if goOn then Some(Session(status, Looping)) else None)
    ensures CallsIn(made, Undelivered(old(store.rows), ids))
    ensures Undelivered(store.rows, ids) <= Undelivered(old(store.rows), ids)
    ensures goOn ==> store.status == status && |Undelivered(store.rows, ids)| < |Undelivered(old(store.rows), ids)|
    ensures status == Aborting ==> !goOn && made == {} && store.status == Failed
    ensures status == Submitted && !goOn && (forall k :: answers(k) == Success) ==> store.status == Succeed
  {
    ghost var c := MsgConfig(steps);
    var adv := MsgFanoutAdvance(status, steps, StatesOf(store.rows, ids));
    goOn, made, tail, s' := false, {}, [], s;
    match adv {
      case CallEach(indices, op) =>
        ghost var open := Undelivered(store.rows, ids);
        goOn, made, tail, s' := MsgStep(store, ids, indices, answers, before, c, s);
        StillOpen(open, Undelivered(store.rows, ids), made, goOn);
      case Finish(to) => tail, s' := MsgFinish(store, ids, status, to, lands, c, s);
      case _ =>
    }
  }

  lemma Associates(a: set<Call>, b: set<Call>, c: set<Call>)
    ensures (a + b) + c == a + (b + c)
  {
  }

  /** How the loop can end. */
  predicate Ended(status: GlobalStatus, row: GlobalStatus, calls: set<Call>, smooth: bool) {
    && (status == Aborting ==> row == Failed && calls == {})
    && (status == Submitted && smooth ==> row == Succeed)
  }

  /** The loop over the steps of a message that is submitted or aborting. */
  method Deliver(store: Store, ids: seq<string>, steps: seq<nat>, status: GlobalStatus, answers: nat -> Reply,
                 lands: bool, ghost s0: State)
    returns (calls: set<Call>, ghost events: seq<Event>, ghost s1: State)
    requires store.tt == Msg && |ids| == |steps| && MsgTable(store.rows, ids)
    requires (status == Submitted || status == Aborting) && store.status == status
    requires MsgAt(MsgConfig(steps), s0, status, store.rows, ids, Some(Session(status, Looping)))
    modifies store
    ensures Exec(MsgConfig(steps), s0, events) == Some(s1) && s1.called == s0.called + calls
    ensures MsgAt(MsgConfig(steps), s1, store.status, store.rows, ids, None)
    ensures CallsIn(calls, Undelivered(old(store.rows), ids))
    ensures status == Aborting ==> store.status == Failed && calls == {}
    ensures status == Submitted && (forall k :: answers(k) == Success) ==> store.status == Succeed
  {
    ghost var c := MsgConfig(steps);
    calls, events, s1 := {}, [], s0;
    var running := true;
    var heard: nat := 0;
    ghost var smooth := forall k :: answers(k) == Success;
    ghost var open := Undelivered(store.rows, ids);
    ghost var left := open;
    while running
      invariant MsgTable(store.rows, ids)
      invariant Exec(c, s0, events) == Some(s1) && s1.called == s0.called + calls
      invariant MsgAt(c, s1, store.status, store.rows, ids, if running then Some(Session(status, Looping)) else None)
      invariant left == Undelivered(store.rows, ids) && left <= open && CallsIn(calls, open)
      invariant if running then store.status == status && (status == Aborting ==> calls == {})
                else Ended(status, store.status, calls, smooth)
      decreases if running then 1 + |left| else 0
    {
      var goOn, made, tail, s := MsgTurn(store, ids, steps, status, answers, heard, lands, s1);
      ExecAppend(c, s0, events, tail);
      Associates(s0.called, calls, made);
      calls, events, s1, running, heard := calls + made, events + tail, s, goOn, heard + |made|;
      left := Undelivered(store.rows, ids);
    }
  }

  /** What a message does before its branches: nothing unless it is prepared; then it asks, where there is
      somebody to ask, and the answer decides. */
  method Ask(store: Store, hasQuery: bool, query: Reply, lands: bool, ghost c: Config, ghost s: State)
    returns (goOn: bool, ghost tail: seq<Event>, ghost s': State)
    requires store.tt == Msg && c.tt == Msg && !c.Shortcut() && store.status == Prepared
    requires Worker(c, s, Prepared, Some(Session(Prepared, Asking)))
    modifies store`status
    ensures Exec(c, s, tail) == Some(s') && s'.called == s.called && s'.fwd == s.fwd && s'.bwd == s.bwd
    ensures Worker(c, s', store.status, if goOn then Some(Body(c, Submitted)) else None)
    ensures goOn <==> hasQuery && query == Success && !lands
    ensures store.status ==
      if hasQuery && query == Success && !lands then Submitted
      else if hasQuery && query == Failure && !lands then Failed
      else if hasQuery && (query == Success || query == Failure) then Aborting
      else Prepared
  {
    goOn := false;
    if !hasQuery {
      s' := LeaveSteps(c, s, Prepared, Session(Prepared, Asking));
      return false, [Leave(0)], s';
    }
    ExecOne(c, s, Answer(0, query));
    s' := StepAsk(s, 0, query);
    tail := [Answer(0, query)];
    ghost var more;
    match query {
      case Success =>
        goOn, more, s' := Rounds.Transition(store, Prepared, Submitted, lands, c, s');
      case Failure =>
        var ok;
        ok, more, s' := Rounds.Transition(store, Prepared, Failed, lands, c, s');
      case _ => return;
    }
    ExecAppend(c, s, tail, more);
    tail := tail + more;
  }

  /** `process_msg`: `query` is the reply to the query, `answers(k)` the k-th reply of a branch, and
      `lands` says whether an abort arrives before a status is written. No branch is called twice in a
      round, and none that is delivered already. */
  method ProcessMsg(store: Store, ids: seq<string>, steps: seq<nat>, hasQuery: bool, query: Reply,
                    answers: nat -> Reply, lands: bool, ghost s0: State)
    returns (calls: set<Call>, ghost events: seq<Event>, ghost s1: State)
    requires store.tt == Msg && |ids| == |steps| && MsgTable(store.rows, ids)
    requires store.status == Prepared || store.status == Submitted || store.status == Aborting
    requires MsgAt(MsgConfig(steps), s0, store.status, store.rows, ids, Some(Entry(MsgConfig(steps), store.status)))
    modifies store
    ensures Exec(MsgConfig(steps), s0, events) == Some(s1) && s1.called == s0.called + calls
    ensures MsgAt(MsgConfig(steps), s1, store.status, store.rows, ids, None)
    ensures CallsIn(calls, Undelivered(old(store.rows), ids))
    ensures old(store.status) == Prepared && !(hasQuery && query == Success) ==>
      calls == {} && store.rows == old(store.rows)
    ensures old(store.status) == Prepared && hasQuery && query == Failure && !lands ==> store.status == Failed
    ensures old(store.status) == Prepared && !(hasQuery && (query == Success || query == Failure)) ==>
      store.status == Prepared
    ensures old(store.status) == Aborting && |ids| > 0 ==> store.status == Failed && calls == {}
    ensures
      var moves := old(store.status) == Prepared && hasQuery && query == Success && !lands;
      (forall k :: answers(k) == Success) && (old(store.status) == Submitted || moves) ==> store.status == Succeed
  {
    ghost var c := MsgConfig(steps);
    calls, events, s1 := {}, [], s0;
    var status := store.status;
    if status == Prepared {
      var goOn;
      goOn, events, s1 := Ask(store, hasQuery, query, lands, c, s0);
      if !goOn {
        return;
      }
      status := Submitted;
    }
    ghost var tail;
    ghost var mid := s1;
    if |ids| == 0 {
      var _, more, s := Rounds.Transition(store, status, Succeed, lands, c, mid);
      tail, s1 := more, s;
    } else {
      calls, tail, s1 := Deliver(store, ids, steps, status, answers, lands, mid);
    }
    ExecAppend(c, s0, events, tail);
    events := events + tail;
  }
}
