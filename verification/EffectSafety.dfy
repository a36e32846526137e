/** The invariant of a saga or message with its services, where no other party takes the place of a
    branch and a forward record proves the effect, and the two promises that follow from it. */
module EffectSafety {
  import opened Types
  import opened Coordinator
  import opened CoordinatorSafety
  import opened Effects
  import B = Barrier

  // ---------- invariant ----------

  predicate Covers(c: Config) {
    c.Valid() && (c.tt == Saga || c.tt == Msg)
  }

  /** Branch i: its two barrier records against its two effect counters. */
  predicate BranchOk(sv: Services, w: World, i: nat)
    requires i < |w.done| && i < |w.undone|
  {
    var act := Holds(sv, w, Call(i, Action));
    var comp := Holds(sv, w, Call(i, Compensate));
    && (comp ==> act)
    && w.done[i] <= (if act then 1 else 0)
    && w.undone[i] <= (if comp then w.done[i] else 0)
    && (act && !comp ==> w.done[i] == 1)
    && (comp && !sv.undoMayRefuse ==> w.done[i] == w.undone[i])
  }

  ghost predicate Answers(sv: Services, w: World) {
    && w.co.acked <= w.answered
    && w.co.refused <= w.declined
    && (forall call :: call in w.answered ==> Mine(call) && Holds(sv, w, call))
    && (forall call :: call in w.declined ==> sv.MayRefuse(call.op))
    && (forall i: nat :: Holds(sv, w, Call(i, Compensate)) ==> Call(i, Compensate) in w.co.called)
  }

  ghost predicate WorldInv(c: Config, sv: Services, w: World) {
    && Inv(c, w.co)
    && |w.done| == c.N() && |w.undone| == c.N()
    && Answers(sv, w)
    && forall i :: 0 <= i < c.N() ==> BranchOk(sv, w, i)
  }

  /** The promises below are made for services like these. */
  ghost predicate Sound(sv: Services) {
    sv.Valid() && sv.Faithful()
  }

  lemma CalledIsMine(c: Config, s: State, call: Call)
    requires Covers(c) && Inv(c, s) && call in s.called
    ensures Mine(call) && call.index < c.N()
    ensures call.op == Compensate ==> s.row == Aborting || s.row == Failed
  {
    assert InOrder(c, s, call) && Directed(c, s, call);
  }

  lemma DeliverBranch(sv: Services, w: World, call: Call, fate: Fate, i: nat)
    requires Sound(sv) && Mine(call) && i < |w.done| == |w.undone| && BranchOk(sv, w, i)
    requires StepDeliver(sv, w, call, fate).Some?
    ensures BranchOk(sv, StepDeliver(sv, w, call, fate).value, i)
  {
    JudgedByBranch(sv, w, call);
    var w' := StepDeliver(sv, w, call, fate).value;
    StoreOnly(sv, w, call, fate, Call(i, Action));
    StoreOnly(sv, w, call, fate, Call(i, Compensate));
  }

  /** A delivery leaves the records of the judgement, or none. */
  lemma StoreOnly(sv: Services, w: World, call: Call, fate: Fate, x: Call)
    requires StepDeliver(sv, w, call, fate).Some?
    ensures
      var w', judged := StepDeliver(sv, w, call, fate).value, Judged(sv, w, sv.KeyOf(call)).0;
      Holds(sv, w', x) ==
        Holds(sv, if fate == Commits || (fate == Refuses && sv.scripted) then judged else w, x)
  {
  }

  lemma KeepDeliver(c: Config, sv: Services, w: World, call: Call, fate: Fate)
    requires Covers(c) && Sound(sv) && WorldInv(c, sv, w) && call in w.co.called
    requires StepDeliver(sv, w, call, fate).Some?
    ensures WorldInv(c, sv, StepDeliver(sv, w, call, fate).value)
  {
    CalledIsMine(c, w.co, call);
    JudgedByBranch(sv, w, call);
    var w' := StepDeliver(sv, w, call, fate).value;
    forall i | 0 <= i < c.N()
      ensures BranchOk(sv, w', i)
    {
      DeliverBranch(sv, w, call, fate, i);
    }
    forall x: Call
      ensures Holds(sv, w', x) == Holds(sv, if fate == Commits || (fate == Refuses && sv.scripted)
                                            then Judged(sv, w, sv.KeyOf(call)).0 else w, x)
    {
      StoreOnly(sv, w, call, fate, x);
    }
    assert Answers(sv, w');
  }

  lemma KeepOther(c: Config, sv: Services, w: World, k: B.Key)
    requires Covers(c) && Sound(sv) && WorldInv(c, sv, w) && k in sv.others
    ensures WorldInv(c, sv, Judged(sv, w, k).0)
  {
    var w' := Judged(sv, w, k).0;
    forall x | Mine(x)
      ensures Holds(sv, w', x) <==> Holds(sv, w, x)
    {
      OthersLeaveAlone(sv, w, k, x);
    }
    forall i | 0 <= i < c.N()
      ensures BranchOk(sv, w', i)
    {
      assert BranchOk(sv, w, i);
    }
  }

  /** The coordinator's own history only grows by answers that were given. */
  lemma KeepCo(c: Config, sv: Services, w: World, e: Event)
    requires Covers(c) && WorldInv(c, sv, w) && Heard(w, e) && Step(c, w.co, e).Some?
    ensures WorldInv(c, sv, w.(co := Step(c, w.co, e).value))
  {
    var s' := Step(c, w.co, e).value;
    var w' := w.(co := s');
    StepKeeps(c, w.co, e);
    HistoryOfStep(c, w.co, e);
    forall call: Call
      ensures Holds(sv, w', call) == Holds(sv, w, call)
    {
    }
    forall i | 0 <= i < c.N()
      ensures BranchOk(sv, w', i)
    {
      assert BranchOk(sv, w, i);
    }
  }

  /** Only a Success or Failure reply adds to the acknowledged or refused calls. */
  lemma HistoryOfStep(c: Config, s: State, e: Event)
    requires |s.fwd| == c.N() && Step(c, s, e).Some?
    ensures
      var s' := Step(c, s, e).value;
      match e
      case Answer(v, r) =>
        if s.sessions[v].pc.Calling?
        then s'.acked <= s.acked + (if r == Success then {s.sessions[v].pc.call} else {})
             && s'.refused <= s.refused + (if r == Failure then {s.sessions[v].pc.call} else {})
        else s'.acked == s.acked && s'.refused == s.refused
      case FanAnswer(_, i, r) =>
        s'.acked <= s.acked + (if r == Success then {Call(i, Action)} else {}) && s'.refused == s.refused
      case _ => s'.acked == s.acked && s'.refused == s.refused
    ensures s.called <= Step(c, s, e).value.called
  {
    match e
    case Answer(v, r) =>
    case FanAnswer(v, i, r) =>
    case _ =>
  }

  lemma {:induction false} WorldExecInv(c: Config, sv: Services, w: World, events: seq<WorldEvent>)
    requires Covers(c) && Sound(sv) && WorldInv(c, sv, w) && WorldExec(c, sv, w, events).Some?
    ensures WorldInv(c, sv, WorldExec(c, sv, w, events).value)
    decreases |events|
  {
    if events != [] {
      match events[0] {
        case Co(e) => KeepCo(c, sv, w, e);
        case Deliver(call, fate) => KeepDeliver(c, sv, w, call, fate);
        case Other(k) => KeepOther(c, sv, w, k);
      }
      WorldExecInv(c, sv, WorldStep(c, sv, w, events[0]).value, events[1..]);
    }
  }

  lemma WorldReachableInv(c: Config, sv: Services, w: World)
    requires Covers(c) && Sound(sv) && WorldReachable(c, sv, w)
    ensures WorldInv(c, sv, w)
  {
    var events :| WorldExec(c, sv, WorldInit(c), events) == Some(w);
    InitInv(c);
    WorldExecInv(c, sv, WorldInit(c), events);
  }

  // ---------- the promises ----------

  /** Each forward effect happened exactly once, and nothing was undone. */
  predicate AllOnce(w: World) {
    && (forall i :: 0 <= i < |w.done| ==> w.done[i] == 1)
    && (forall i :: 0 <= i < |w.undone| ==> w.undone[i] == 0)
  }

  /** On every branch, what was done was undone as often as it was done, which is at most once. */
  predicate NetZero(w: World) {
    w.done == w.undone && forall i :: 0 <= i < |w.done| ==> w.done[i] <= 1
  }

  lemma SucceedAllOnce(c: Config, sv: Services, w: World)
    requires Covers(c) && Sound(sv) && WorldReachable(c, sv, w) && w.co.row == Succeed
    ensures AllOnce(w)
  {
    WorldReachableInv(c, sv, w);
    forall i | 0 <= i < c.N()
      ensures w.done[i] == 1 && w.undone[i] == 0
    {
      assert BranchOk(sv, w, i);
      assert Call(i, c.FwdOp()) in w.co.acked;
      var comp := Call(i, Compensate);
      if comp in w.co.called {
        CalledIsMine(c, w.co, comp);
      }
    }
  }

  lemma FailedNetZero(c: Config, sv: Services, w: World)
    requires Covers(c) && c.tt == Saga && Sound(sv) && !sv.undoMayRefuse && WorldReachable(c, sv, w) &&
      w.co.row == Failed
    ensures NetZero(w)
  {
    WorldReachableInv(c, sv, w);
    forall i | 0 <= i < c.N()
      ensures w.done[i] == w.undone[i] && w.done[i] <= 1
    {
      assert BranchOk(sv, w, i);
      var undo := Call(i, c.BwdOp());
      assert undo in w.co.acked || undo in w.co.refused;
    }
  }
}
