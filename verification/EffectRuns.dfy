/** Exactly when the effects of a saga or a message add up: the runs that break it otherwise. */
module EffectRuns {
  import opened Types
  import opened Decisions
  import opened Coordinator
  import opened Effects
  import opened EffectSafety
  import B = Barrier

  // ---------- building runs ----------

  lemma {:induction false} WorldExecSnoc(c: Config, sv: Services, w: World, events: seq<WorldEvent>, e: WorldEvent)
    requires |w.co.fwd| == c.N() && WorldExec(c, sv, w, events).Some? && Possible(sv, e)
    ensures |WorldExec(c, sv, w, events).value.co.fwd| == c.N()
    ensures WorldExec(c, sv, w, events + [e]) == WorldStep(c, sv, WorldExec(c, sv, w, events).value, e)
    decreases |events|
  {
    if events == [] {
      assert ([] + [e])[1..] == [];
      WorldKeepsWidth(c, sv, w, e);
    } else {
      WorldKeepsWidth(c, sv, w, events[0]);
      assert (events + [e])[1..] == events[1..] + [e];
      WorldExecSnoc(c, sv, WorldStep(c, sv, w, events[0]).value, events[1..], e);
    }
  }

  lemma Then(c: Config, sv: Services, w: World, e: WorldEvent) returns (w': World)
    requires WorldReachable(c, sv, w) && |w.co.fwd| == c.N() && Possible(sv, e) && WorldStep(c, sv, w, e).Some?
    ensures WorldReachable(c, sv, w') && |w'.co.fwd| == c.N()
    ensures WorldStep(c, sv, w, e) == Some(w')
  {
    var events :| WorldExec(c, sv, WorldInit(c), events) == Some(w);
    WorldExecSnoc(c, sv, WorldInit(c), events, e);
    WorldKeepsWidth(c, sv, w, e);
    w' := WorldStep(c, sv, w, e).value;
    assert WorldExec(c, sv, WorldInit(c), events + [e]) == Some(w');
  }

  lemma Start(c: Config, sv: Services)
    ensures WorldReachable(c, sv, WorldInit(c))
  {
    assert WorldExec(c, sv, WorldInit(c), []) == Some(WorldInit(c));
  }

  function ActOf(i: nat): Call {
    Call(i, Action)
  }

  function UndoOf(i: nat): Call {
    Call(i, Compensate)
  }

  /** Two counters agree except for branch i, which has grown by n. */
  predicate Grown(a: seq<nat>, b: seq<nat>, i: nat, n: nat) {
    |a| == |b| && i < |a| && b == a[i := a[i] + n]
  }

  // ---------- a saga goes forward ----------

  function SagaConfig(n: nat): (c: Config)
    ensures c.N() == n && c.Valid() && c.tt == Saga
  {
    Config(Saga, SqlBackend, false, false, seq(n, i => i))
  }

  predicate Sized(c: Config, w: World) {
    |w.co.fwd| == c.N() && |w.co.bwd| == c.N() && |w.done| == c.N() && |w.undone| == c.N()
  }

  /** The only worker is about to call action j. */
  predicate OnWay(c: Config, w: World, j: nat) {
    && Sized(c, w) && j <= c.N() && c.N() > 0
    && w.co.row == Submitted && w.co.aborts == map[]
    && w.co.sessions == map[0 := Session(Submitted, Looping)]
    && (forall x :: 0 <= x < c.N() ==> w.co.fwd[x] == if x < j then Done else Pending)
    && (forall x :: 0 <= x < c.N() ==> w.co.bwd[x] == Pending)
  }

  lemma LockSaga(c: Config, sv: Services, w: World) returns (w': World)
    requires WorldReachable(c, sv, w) && c == SagaConfig(c.N()) && c.N() > 0 && Sized(c, w)
    requires w.co.sessions == map[] && (w.co.row == Submitted || w.co.row == Aborting)
    ensures WorldReachable(c, sv, w')
    ensures w' == w.(co := w.co.(sessions := map[0 := Session(w.co.row, Looping)]))
  {
    w' := Then(c, sv, w, Co(Lock(0)));
    assert w'.co.sessions == map[0 := Session(w.co.row, Looping)];
  }

  /** The worker decides on a call. */
  lemma SagaReads(c: Config, sv: Services, w: World, st: GlobalStatus, call: Call) returns (w': World)
    requires WorldReachable(c, sv, w) && c == SagaConfig(c.N()) && Sized(c, w)
    requires w.co.sessions == map[0 := Session(st, Looping)]
    requires SagaNext(st, w.co.fwd, w.co.bwd) == CallOne(call.index, call.op)
    ensures WorldReachable(c, sv, w')
    ensures w' == w.(co := w.co.(sessions := map[0 := Session(st, Calling(call))], called := w.co.called + {call}))
  {
    w' := Then(c, sv, w, Co(Read(0)));
    assert w'.co.sessions == map[0 := Session(st, Calling(call))];
  }

  /** It is delivered and answered. */
  lemma Delivered(c: Config, sv: Services, w: World, call: Call) returns (w': World)
    requires WorldReachable(c, sv, w) && Sized(c, w) && sv.Valid() && Mine(call) && call in w.co.called &&
      call.index < c.N()
    ensures WorldReachable(c, sv, w') && Sized(c, w') && w'.co == w.co && w'.answered == w.answered + {call}
    ensures Called(sv, w, w', call)
  {
    w' := Then(c, sv, w, Deliver(call, Commits));
    forall x
      ensures Holds(sv, w', x) == Holds(sv, Judged(sv, w, sv.KeyOf(call)).0, x)
    {
      StoreOnly(sv, w, call, Commits, x);
    }
  }

  /** And the worker hears Success. */
  lemma SagaHears(c: Config, sv: Services, w: World, st: GlobalStatus, call: Call) returns (w': World)
    requires WorldReachable(c, sv, w) && c == SagaConfig(c.N()) && Sized(c, w) && Mine(call) && call.index < c.N()
    requires w.co.sessions == map[0 := Session(st, Calling(call))] && call in w.answered
    ensures WorldReachable(c, sv, w')
    ensures
      w' == w.(co := w.co.(
        sessions := map[0 := Session(st, Looping)], acked := w.co.acked + {call},
        fwd := if call.op == Action then w.co.fwd[call.index := Done] else w.co.fwd,
        bwd := if call.op == Action then w.co.bwd else w.co.bwd[call.index := Done]))
  {
    w' := Then(c, sv, w, Co(Answer(0, Success)));
    assert w'.co.sessions == map[0 := Session(st, Looping)];
  }

  /** What one call, delivered once and answered, does to store and counters. */
  ghost predicate Called(sv: Services, w: World, w': World, call: Call) {
    && (if call.op == Action then Grown(w.done, w'.done, call.index, Runs(sv, w, call)) && w'.undone == w.undone
        else Grown(w.undone, w'.undone, call.index, Runs(sv, w, call)) && w'.done == w.done)
    && forall x :: Holds(sv, w', x) == Holds(sv, Judged(sv, w, sv.KeyOf(call)).0, x)
  }

  function Runs(sv: Services, w: World, call: Call): nat {
    if Judged(sv, w, sv.KeyOf(call)).1 == B.Execute then 1 else 0
  }

  lemma OneCall(c: Config, sv: Services, w: World, st: GlobalStatus, call: Call) returns (w': World)
    requires WorldReachable(c, sv, w) && c == SagaConfig(c.N()) && Sized(c, w) && sv.Valid()
    requires Mine(call) && call.index < c.N() && w.co.sessions == map[0 := Session(st, Looping)]
    requires SagaNext(st, w.co.fwd, w.co.bwd) == CallOne(call.index, call.op)
    ensures WorldReachable(c, sv, w') && Sized(c, w') && Called(sv, w, w', call)
    ensures w'.co.sessions == w.co.sessions && w'.co.row == w.co.row && w'.co.aborts == w.co.aborts
    ensures w'.co.fwd == if call.op == Action then w.co.fwd[call.index := Done] else w.co.fwd
    ensures w'.co.bwd == if call.op == Action then w.co.bwd else w.co.bwd[call.index := Done]
  {
    var w1 := SagaReads(c, sv, w, st, call);
    SameStore(sv, w, w1);
    var w2 := Delivered(c, sv, w1, call);
    w' := SagaHears(c, sv, w2, st, call);
    SameStore(sv, w2, w');
  }

  /** What the coordinator does is not seen in the store. */
  lemma SameStore(sv: Services, w: World, w': World)
    requires w' == w.(co := w'.co)
    ensures forall k :: Judged(sv, w', k).1 == Judged(sv, w, k).1
    ensures forall k, x :: Holds(sv, Judged(sv, w', k).0, x) == Holds(sv, Judged(sv, w, k).0, x)
    ensures forall x :: Holds(sv, w', x) == Holds(sv, w, x)
  {
  }

  /** The worker goes on to action n. A branch whose place is taken gets no effect; any other gets one. */
  lemma {:induction false} GoForward(c: Config, sv: Services, w: World, j: nat, n: nat) returns (w': World)
    requires WorldReachable(c, sv, w) && c == SagaConfig(c.N()) && sv.Valid() && OnWay(c, w, j) && j <= n <= c.N()
    ensures WorldReachable(c, sv, w') && OnWay(c, w', n) && w'.undone == w.undone
    ensures forall x :: 0 <= x < c.N() ==>
      w'.done[x] == w.done[x] + if j <= x < n && !Holds(sv, w, ActOf(x)) then 1 else 0
    ensures forall x: nat :: Holds(sv, w', UndoOf(x)) == Holds(sv, w, UndoOf(x))
    ensures forall x: nat :: Holds(sv, w', ActOf(x)) <==> Holds(sv, w, ActOf(x)) || j <= x < n
    decreases n - j
  {
    if j == n {
      w' := w;
    } else {
      FirstUnfinishedUnique(w.co.fwd, j);
      JudgedByBranch(sv, w, ActOf(j));
      var mid := OneCall(c, sv, w, Submitted, ActOf(j));
      assert forall x: nat :: Holds(sv, mid, UndoOf(x)) == Holds(sv, w, UndoOf(x));
      assert forall x: nat :: Holds(sv, mid, ActOf(x)) <==> Holds(sv, w, ActOf(x)) || x == j;
      w' := GoForward(c, sv, mid, j + 1, n);
    }
  }

  lemma EndsForward(c: Config, sv: Services, w: World) returns (w': World)
    requires WorldReachable(c, sv, w) && c == SagaConfig(c.N()) && OnWay(c, w, c.N())
    ensures WorldReachable(c, sv, w') && w'.co.row == Succeed && w'.done == w.done && w'.undone == w.undone
  {
    FirstUnfinishedUnique(w.co.fwd, c.N());
    w' := Then(c, sv, w, Co(Read(0)));
    assert w'.co.sessions == map[0 := Session(Submitted, Deciding(Succeed))];
    w' := Then(c, sv, w', Co(Write(0)));
  }

  // ---------- a saga goes back ----------

  /** The only worker is about to call compensation j - 1. */
  predicate OnWayBack(c: Config, w: World, j: nat) {
    && Sized(c, w) && j <= c.N() && c.N() > 0
    && w.co.row == Aborting
    && w.co.sessions == map[0 := Session(Aborting, Looping)]
    && (forall x :: 0 <= x < c.N() ==> (w.co.bwd[x] == Pending <==> x < j))
  }

  /** The worker vanishes, the caller aborts, and a worker takes over. */
  lemma Aborted(c: Config, sv: Services, w: World, j: nat) returns (w': World)
    requires WorldReachable(c, sv, w) && c == SagaConfig(c.N()) && OnWay(c, w, j)
    ensures WorldReachable(c, sv, w') && OnWayBack(c, w', c.N())
    ensures w' == w.(co := w'.co)
  {
    var left := Then(c, sv, w, Co(Leave(0)));
    assert left.co.sessions == map[];
    var read := Then(c, sv, left, Co(AbortRead(0)));
    assert read.co.aborts == map[0 := Submitted];
    var aborting := Then(c, sv, read, Co(AbortWrite(0)));
    w' := LockSaga(c, sv, aborting);
  }

  /** The worker undoes branches down to n: those that hold an action and no compensation. */
  lemma {:induction false} GoBack(c: Config, sv: Services, w: World, j: nat, n: nat) returns (w': World)
    requires WorldReachable(c, sv, w) && c == SagaConfig(c.N()) && sv.Valid() && OnWayBack(c, w, j) && n <= j
    ensures WorldReachable(c, sv, w') && OnWayBack(c, w', n) && w'.done == w.done
    ensures forall x :: 0 <= x < c.N() ==>
      w'.undone[x] == w.undone[x] + if n <= x < j && Holds(sv, w, ActOf(x)) && !Holds(sv, w, UndoOf(x)) then 1 else 0
    decreases j - n
  {
    if j == n {
      w' := w;
    } else {
      LastPendingUnique(w.co.bwd, j - 1);
      JudgedByBranch(sv, w, UndoOf(j - 1));
      var mid := OneCall(c, sv, w, Aborting, UndoOf(j - 1));
      assert forall x: nat :: x != j - 1 ==>
        (Holds(sv, mid, ActOf(x)) == Holds(sv, w, ActOf(x)) && Holds(sv, mid, UndoOf(x)) == Holds(sv, w, UndoOf(x)));
      w' := GoBack(c, sv, mid, j - 1, n);
    }
  }

  lemma EndsBack(c: Config, sv: Services, w: World) returns (w': World)
    requires WorldReachable(c, sv, w) && c == SagaConfig(c.N()) && OnWayBack(c, w, 0)
    ensures WorldReachable(c, sv, w') && w'.co.row == Failed && w'.done == w.done && w'.undone == w.undone
  {
    LastPendingUnique(w.co.bwd, -1);
    w' := Then(c, sv, w, Co(Read(0)));
    assert w'.co.sessions == map[0 := Session(Aborting, Deciding(Failed))];
    w' := Then(c, sv, w', Co(Write(0)));
  }

  // ---------- a message goes out ----------

  /** All branches in one step; only the atomic submit is needed. */
  function MsgConfig(n: nat): (c: Config)
    ensures c.N() == n && c.Valid() && c.tt == Msg
  {
    Config(Msg, RedisBackend, false, false, seq(n, _ => 0))
  }

  function From(j: nat, n: nat): (s: set<nat>)
    ensures forall x :: x in s <==> j <= x < n
    decreases n - j
  {
    if j >= n then {} else {j} + From(j + 1, n)
  }

  /** The worker waits for the branches from j on. */
  predicate FanWay(c: Config, w: World, j: nat) {
    && Sized(c, w) && j < c.N() && w.co.row == Submitted
    && w.co.sessions == map[0 := Session(Submitted, Fanout(From(j, c.N()), true))]
    && (forall x :: 0 <= x < c.N() ==> w.co.fwd[x] == if x < j then Done else Pending)
    && (forall x: nat :: x < c.N() ==> ActOf(x) in w.co.called)
  }

  /** The message is submitted, and a worker calls every branch. */
  lemma MsgCalls(c: Config, sv: Services, w: World) returns (w': World)
    requires WorldReachable(c, sv, w) && c == MsgConfig(c.N()) && c.N() > 0 && w.co == Init(c) && Sized(c, w)
    ensures WorldReachable(c, sv, w') && FanWay(c, w', 0) && w' == w.(co := w'.co)
  {
    var submitted := Then(c, sv, w, Co(Submit(0)));
    var locked := Then(c, sv, submitted, Co(Lock(0)));
    assert locked.co.sessions == map[0 := Session(Submitted, Looping)];
    w' := FanCalls(c, sv, locked);
  }

  lemma FanCalls(c: Config, sv: Services, w: World) returns (w': World)
    requires WorldReachable(c, sv, w) && c == MsgConfig(c.N()) && c.N() > 0 && Sized(c, w) && w.co.row == Submitted
    requires w.co.sessions == map[0 := Session(Submitted, Looping)] && w.co.fwd == AllPending(c.N())
    ensures WorldReachable(c, sv, w') && FanWay(c, w', 0) && w' == w.(co := w'.co)
  {
    w' := Then(c, sv, w, Co(Read(0)));
    FanReads(c, w.co);
  }

  lemma FanReads(c: Config, s: State)
    requires c == MsgConfig(c.N()) && c.N() > 0 && |s.fwd| == c.N() && s.fwd == AllPending(c.N())
    requires s.sessions == map[0 := Session(Submitted, Looping)]
    ensures
      var s' := StepRead(c, s, 0);
      && s' == s.(sessions := map[0 := Session(Submitted, Fanout(From(0, c.N()), true))], called := s'.called)
      && forall x: nat :: x < c.N() ==> ActOf(x) in s'.called
  {
    EveryoneIsNext(c, s.fwd);
    var idxs := UnfinishedIn(0, c.steps, DoneView(s.fwd));
    FanReadsThese(c, s, idxs, From(0, c.N()));
    forall x: nat | x < c.N()
      ensures ActOf(x) in StepRead(c, s, 0).called
    {
      assert x in idxs;
    }
  }

  lemma FanReadsThese(c: Config, s: State, idxs: seq<nat>, waiting: set<nat>)
    requires forall x :: x in waiting <==> x in idxs
    requires |s.fwd| == c.N() && s.sessions == map[0 := Session(Submitted, Looping)]
    requires Decide(c, Submitted, s.fwd, s.bwd) == CallEach(idxs, Action)
    ensures
      var s' := StepRead(c, s, 0);
      && s' == s.(sessions := map[0 := Session(Submitted, Fanout(waiting, true))], called := s'.called)
      && forall x :: x in idxs ==> Call(x, Action) in s'.called
  {
    assert Members(idxs) == waiting;
    assert StepRead(c, s, 0).sessions == map[0 := Session(Submitted, Fanout(waiting, true))];
  }

  lemma EveryoneIsNext(c: Config, fwd: seq<BranchStatus>)
    requires c == MsgConfig(c.N()) && c.N() > 0 && fwd == AllPending(c.N())
    ensures MsgNext(Submitted, c.steps, DoneView(fwd)) == CallEach(UnfinishedIn(0, c.steps, DoneView(fwd)), Action)
    ensures forall x: nat :: x in UnfinishedIn(0, c.steps, DoneView(fwd)) <==> x < c.N()
  {
    FirstUnfinishedUnique(DoneView(fwd), 0);
  }

  /** One branch is answered with success, and the worker hears it. */
  lemma FanOne(c: Config, sv: Services, w: World, j: nat) returns (w': World)
    requires WorldReachable(c, sv, w) && c == MsgConfig(c.N()) && sv.Valid() && FanWay(c, w, j)
    ensures WorldReachable(c, sv, w') && Sized(c, w') && Called(sv, w, w', ActOf(j))
    ensures j + 1 < c.N() ==> FanWay(c, w', j + 1)
    ensures j + 1 == c.N() ==>
      w'.co.row == Submitted && w'.co.sessions == map[0 := Session(Submitted, Looping)]
      && forall x :: 0 <= x < c.N() ==> w'.co.fwd[x] == Done
  {
    var given := Delivered(c, sv, w, ActOf(j));
    w' := Then(c, sv, given, Co(FanAnswer(0, j, Success)));
    SameStore(sv, given, w');
    assert From(j, c.N()) - {j} == From(j + 1, c.N());
    if j + 1 < c.N() {
      assert j + 1 in From(j + 1, c.N());
      assert w'.co.sessions == map[0 := Session(Submitted, Fanout(From(j + 1, c.N()), true))];
    } else {
      assert From(j + 1, c.N()) == {};
      assert w'.co.sessions == map[0 := Session(Submitted, Looping)];
    }
  }

  /** The rest of the branches, and the end. A branch whose place is taken gets no effect. */
  lemma {:induction false} FanOut(c: Config, sv: Services, w: World, j: nat, i: nat) returns (w': World)
    requires WorldReachable(c, sv, w) && c == MsgConfig(c.N()) && sv.Valid() && FanWay(c, w, j) && i < c.N()
    requires Holds(sv, w, ActOf(i))
    ensures WorldReachable(c, sv, w') && w'.co.row == Succeed && |w'.done| == c.N() && w'.done[i] == w.done[i]
    decreases c.N() - j
  {
    JudgedByBranch(sv, w, ActOf(j));
    var mid := FanOne(c, sv, w, j);
    assert Holds(sv, mid, ActOf(i)) && mid.done[i] == w.done[i];
    if j + 1 < c.N() {
      w' := FanOut(c, sv, mid, j + 1, i);
    } else {
      w' := MsgEnds(c, sv, mid);
    }
  }

  lemma MsgEnds(c: Config, sv: Services, w: World) returns (w': World)
    requires WorldReachable(c, sv, w) && c == MsgConfig(c.N()) && c.N() > 0 && Sized(c, w) && w.co.row == Submitted
    requires w.co.sessions == map[0 := Session(Submitted, Looping)]
    requires forall x :: 0 <= x < c.N() ==> w.co.fwd[x] == Done
    ensures WorldReachable(c, sv, w') && w'.co.row == Succeed && w'.done == w.done
  {
    FirstUnfinishedUnique(DoneView(w.co.fwd), c.N());
    var decided := Then(c, sv, w, Co(Read(0)));
    assert decided.co.sessions == map[0 := Session(Submitted, Deciding(Succeed))];
    w' := Then(c, sv, decided, Co(Write(0)));
  }

  // ---------- a place is taken without the effect ----------

  /** Another party takes the place of branch i before anything else happens. */
  lemma TakenFirst(c: Config, sv: Services, k: B.Key, i: nat) returns (w: World)
    requires k in sv.others && sv.Takes(k, i)
    ensures WorldReachable(c, sv, w) && w.co == Init(c) && w.done == Zeros(c.N()) && w.undone == Zeros(c.N())
    ensures Holds(sv, w, ActOf(i))
    ensures Holds(sv, w, UndoOf(i)) ==> sv.SameKey(k, sv.KeyOf(UndoOf(i)))
  {
    var start := WorldInit(c);
    Start(c, sv);
    w := Then(c, sv, start, Other(k));
    JudgedHas(sv, start, k, sv.KeyOf(ActOf(i)));
    JudgedHas(sv, start, k, sv.KeyOf(UndoOf(i)));
    if B.OriginKey(k).Some? && sv.SameKey(B.OriginKey(k).value, sv.KeyOf(UndoOf(i))) {
      OriginIsNoUndo(sv, k, i);
    }
  }

  lemma OriginIsNoUndo(sv: Services, k: B.Key, i: nat)
    requires B.OriginKey(k).Some? && B.NoDash(k.barrierId)
    ensures !sv.SameKey(B.OriginKey(k).value, sv.KeyOf(UndoOf(i)))
  {
    B.RedisKeyExactly(sv.prefix, B.OriginKey(k).value, sv.KeyOf(UndoOf(i)));
  }

  /** A saga whose branch i is taken from the start succeeds without that effect. */
  lemma TakenSucceeds(c: Config, sv: Services, w: World, i: nat) returns (w': World)
    requires WorldReachable(c, sv, w) && c == SagaConfig(c.N()) && sv.Valid() && OnWay(c, w, 0) && i < c.N()
    requires Holds(sv, w, ActOf(i)) && w.done[i] == 0
    ensures WorldReachable(c, sv, w') && w'.co.row == Succeed && !AllOnce(w')
  {
    var at := GoForward(c, sv, w, 0, c.N());
    w' := EndsForward(c, sv, at);
  }

  /** A saga whose branch i is taken, though not its compensation, fails with an effect undone that
      never was. */
  lemma TakenFails(c: Config, sv: Services, w: World, i: nat) returns (w': World)
    requires WorldReachable(c, sv, w) && c == SagaConfig(c.N()) && sv.Valid() && OnWay(c, w, 0) && i < c.N()
    requires Holds(sv, w, ActOf(i)) && !Holds(sv, w, UndoOf(i)) && w.done[i] == 0
    ensures WorldReachable(c, sv, w') && w'.co.row == Failed && !NetZero(w')
  {
    var back := Aborted(c, sv, w, 0);
    SameStore(sv, w, back);
    var at := GoBack(c, sv, back, c.N(), 0);
    w' := EndsBack(c, sv, at);
    assert w'.done[i] != w'.undone[i];
  }

  /** The place of the compensation is taken after the action took effect. */
  lemma UndoTakenFails(c: Config, sv: Services, k: B.Key, i: nat) returns (w: World)
    requires c == SagaConfig(c.N()) && i < c.N() && sv.Valid() && k in sv.others && sv.SameKey(k, sv.KeyOf(UndoOf(i)))
    ensures WorldReachable(c, sv, w) && w.co.row == Failed && !NetZero(w)
  {
    Start(c, sv);
    var start := LockSaga(c, sv, WorldInit(c));
    var done := GoForward(c, sv, start, 0, i + 1);
    var taken := Then(c, sv, done, Other(k));
    JudgedHas(sv, done, k, sv.KeyOf(UndoOf(i)));
    var back := Aborted(c, sv, taken, i + 1);
    SameStore(sv, taken, back);
    var at := GoBack(c, sv, back, c.N(), 0);
    w := EndsBack(c, sv, at);
    assert w.done[i] != w.undone[i];
  }

  /** With the Redis barrier a refused action takes its own place: the key stays. */
  lemma RefusalTakes(sv: Services) returns (w: World)
    requires sv.Valid() && sv.scripted && sv.forwardMayRefuse
    ensures
      var c := SagaConfig(1);
      WorldReachable(c, sv, w) && OnWay(c, w, 0) && Holds(sv, w, ActOf(0)) && !Holds(sv, w, UndoOf(0)) && w.done[0] == 0
  {
    var c := SagaConfig(1);
    Start(c, sv);
    var start := LockSaga(c, sv, WorldInit(c));
    FirstUnfinishedUnique(start.co.fwd, 0);
    var called := SagaReads(c, sv, start, Submitted, ActOf(0));
    JudgedByBranch(sv, called, ActOf(0));
    var refused := Then(c, sv, called, Deliver(ActOf(0), Refuses));
    StoreOnly(sv, called, ActOf(0), Refuses, ActOf(0));
    StoreOnly(sv, called, ActOf(0), Refuses, UndoOf(0));
    w := TakenOver(c, sv, refused);
    SameStore(sv, refused, w);
  }

  /** The worker vanishes and another one takes over. */
  lemma TakenOver(c: Config, sv: Services, w: World) returns (w': World)
    requires WorldReachable(c, sv, w) && c == SagaConfig(c.N()) && c.N() > 0 && Sized(c, w)
    requires w.co.sessions.Keys == {0} && (w.co.row == Submitted || w.co.row == Aborting)
    ensures WorldReachable(c, sv, w')
    ensures w' == w.(co := w.co.(sessions := map[0 := Session(w.co.row, Looping)]))
  {
    var left := Then(c, sv, w, Co(Leave(0)));
    assert left.co.sessions == map[];
    w' := LockSaga(c, sv, left);
  }

  lemma MsgRefusalTakes(sv: Services) returns (w: World)
    requires sv.Valid() && sv.scripted && sv.forwardMayRefuse
    ensures WorldReachable(MsgConfig(1), sv, w) && FanWay(MsgConfig(1), w, 0)
    ensures Holds(sv, w, ActOf(0)) && w.done[0] == 0
  {
    var c := MsgConfig(1);
    Start(c, sv);
    var called := MsgCalls(c, sv, WorldInit(c));
    JudgedByBranch(sv, called, ActOf(0));
    w := Then(c, sv, called, Deliver(ActOf(0), Refuses));
    StoreOnly(sv, called, ActOf(0), Refuses, ActOf(0));
  }

  /** A saga compensation that is refused is skipped in the next round, and the saga ends Failed with
      the action's effect in place. */
  lemma SkippedCompensationRun(sv: Services) returns (w: World)
    requires sv.Valid() && sv.undoMayRefuse
    ensures WorldReachable(SagaConfig(1), sv, w) && w.co.row == Failed && !NetZero(w)
  {
    var c := SagaConfig(1);
    Start(c, sv);
    var start := LockSaga(c, sv, WorldInit(c));
    var done := GoForward(c, sv, start, 0, 1);
    var back := Aborted(c, sv, done, 1);
    SameStore(sv, done, back);
    LastPendingUnique(back.co.bwd, 0);
    var called := SagaReads(c, sv, back, Aborting, UndoOf(0));
    SameStore(sv, back, called);
    var refused := UndoRefused(c, sv, called);
    var again := LockSaga(c, sv, refused);
    w := EndsBack(c, sv, again);
  }

  lemma UndoRefused(c: Config, sv: Services, w: World) returns (w': World)
    requires WorldReachable(c, sv, w) && c == SagaConfig(1) && sv.Valid() && sv.undoMayRefuse && Sized(c, w)
    requires w.co.sessions == map[0 := Session(Aborting, Calling(UndoOf(0)))] && w.co.row == Aborting
    requires UndoOf(0) in w.co.called && Holds(sv, w, ActOf(0)) && !Holds(sv, w, UndoOf(0))
    ensures WorldReachable(c, sv, w') && w'.co.sessions == map[] && w'.co.row == Aborting && w'.co.bwd == [Refused]
    ensures Sized(c, w') && w'.done == w.done && w'.undone == w.undone
  {
    JudgedByBranch(sv, w, UndoOf(0));
    var declined := Then(c, sv, w, Deliver(UndoOf(0), Refuses));
    w' := Then(c, sv, declined, Co(Answer(0, Failure)));
    assert w'.co.sessions == map[];
  }

  // ---------- exactly when the promises are kept ----------

  ghost predicate SucceedIsAllOnce(tt: TransType, sv: Services) {
    forall c: Config, w :: c.Valid() && c.tt == tt && WorldReachable(c, sv, w) && w.co.row == Succeed ==> AllOnce(w)
  }

  ghost predicate FailedIsNetZero(sv: Services) {
    forall c: Config, w :: c.Valid() && c.tt == Saga && WorldReachable(c, sv, w) && w.co.row == Failed ==> NetZero(w)
  }

  /** Another party takes the place of a branch, and the transaction succeeds without its effect. */
  lemma TakenPlaceRun(tt: TransType, sv: Services, k: B.Key, i: nat)
    requires (tt == Saga || tt == Msg) && sv.Valid() && k in sv.others && sv.Takes(k, i)
    ensures !SucceedIsAllOnce(tt, sv)
  {
    if tt == Saga {
      var c := SagaConfig(i + 1);
      var w := TakenFirst(c, sv, k, i);
      var on := LockSaga(c, sv, w);
      SameStore(sv, w, on);
      var last := TakenSucceeds(c, sv, on, i);
    } else {
      var c := MsgConfig(i + 1);
      var w := TakenFirst(c, sv, k, i);
      var on := MsgCalls(c, sv, w);
      SameStore(sv, w, on);
      var last := FanOut(c, sv, on, 0, i);
      assert last.done[i] == 0;
    }
  }

  /** A refused action keeps its key; the repeated call is answered as a duplicate. */
  lemma LostRefusalRun(tt: TransType, sv: Services)
    requires (tt == Saga || tt == Msg) && sv.Valid() && sv.scripted && sv.forwardMayRefuse
    ensures !SucceedIsAllOnce(tt, sv)
  {
    if tt == Saga {
      var w := RefusalTakes(sv);
      var last := TakenSucceeds(SagaConfig(1), sv, w, 0);
    } else {
      var w := MsgRefusalTakes(sv);
      var last := FanOut(MsgConfig(1), sv, w, 0, 0);
      assert last.done[0] == 0;
    }
  }

  /** Another party takes the place of a branch, and the saga fails with that branch out of balance. */
  lemma TakenPlaceFailsRun(sv: Services, k: B.Key, i: nat)
    requires sv.Valid() && k in sv.others && sv.Takes(k, i)
    ensures !FailedIsNetZero(sv)
  {
    var c := SagaConfig(i + 1);
    if sv.SameKey(k, sv.KeyOf(UndoOf(i))) {
      var last := UndoTakenFails(c, sv, k, i);
    } else {
      var w := TakenFirst(c, sv, k, i);
      var on := LockSaga(c, sv, w);
      SameStore(sv, w, on);
      var last := TakenFails(c, sv, on, i);
    }
  }

  /** The compensation of a refused action executes although there is nothing to undo. */
  lemma OvercompensationRun(sv: Services)
    requires sv.Valid() && sv.scripted && sv.forwardMayRefuse
    ensures !FailedIsNetZero(sv)
  {
    var w := RefusalTakes(sv);
    var last := TakenFails(SagaConfig(1), sv, w, 0);
  }

  /** Over every interleaving of workers, crashes, lost replies, repeated and late deliveries, aborts,
      and calls of other parties on the same store: a saga or message that is Succeed has each effect
      exactly once and none undone, exactly when no other party takes the place of a branch and the
      Redis barrier is not combined with forward calls that may be refused. */
  lemma SucceedIsAllOnceExactly(tt: TransType, sv: Services)
    requires (tt == Saga || tt == Msg) && sv.Valid()
    ensures SucceedIsAllOnce(tt, sv) <==> sv.Clear() && (!sv.scripted || !sv.forwardMayRefuse)
  {
    if !sv.Clear() {
      var k, i: nat :| k in sv.others && sv.Takes(k, i);
      TakenPlaceRun(tt, sv, k, i);
    } else if sv.scripted && sv.forwardMayRefuse {
      LostRefusalRun(tt, sv);
    } else {
      forall c: Config, w | c.Valid() && c.tt == tt && WorldReachable(c, sv, w) && w.co.row == Succeed
        ensures AllOnce(w)
      {
        SucceedAllOnce(c, sv, w);
      }
    }
  }

  /** And a saga that is Failed has net effect zero on every branch, exactly when in addition no
      compensation is ever refused. */
  lemma FailedIsNetZeroExactly(sv: Services)
    requires sv.Valid()
    ensures FailedIsNetZero(sv) <==> !sv.undoMayRefuse && sv.Clear() && (!sv.scripted || !sv.forwardMayRefuse)
  {
    if sv.undoMayRefuse {
      var w := SkippedCompensationRun(sv);
    } else if !sv.Clear() {
      var k, i: nat :| k in sv.others && sv.Takes(k, i);
      TakenPlaceFailsRun(sv, k, i);
    } else if sv.scripted && sv.forwardMayRefuse {
      OvercompensationRun(sv);
    } else {
      forall c: Config, w | c.Valid() && c.tt == Saga && WorldReachable(c, sv, w) && w.co.row == Failed
        ensures NetZero(w)
      {
        FailedNetZero(c, sv, w);
      }
    }
  }

  // ---------- who takes the place of a branch ----------

  /** Other transactions, with any operation, on the same store. */
  ghost function OtherTransactions(sc: B.Scope, gid: string): iset<B.Key> {
    iset k: B.Key | sc.Has(k) && k.gid != gid
  }

  /** They leave every place alone exactly on SQL, or where no gid and branch number of theirs read
      like ours when joined. */
  lemma ClearOfOthersExactly(sv: Services, sc: B.Scope)
    requires sv.others == OtherTransactions(sc, sv.gid)
    ensures sv.Clear() <==>
            !sv.scripted || forall g, b, i: nat :: g in sc.gids && g != sv.gid && b in sc.branches ==>
              g + "-" + b != sv.gid + "-" + sv.number(i)
  {
    if sv.scripted {
      if g, b, i: nat :| g in sc.gids && g != sv.gid && b in sc.branches && g + "-" + b == sv.gid + "-" + sv.number(i) {
        var k := B.Key(g, b, Action, "01");
        B.RedisKeyExactly(sv.prefix, k, sv.KeyOf(ActOf(i)));
        assert k in sv.others && sv.Takes(k, i);
      }
      forall k, i: nat | k in sv.others && sv.Takes(k, i)
        ensures k.gid + "-" + k.branch == sv.gid + "-" + sv.number(i)
      {
        ReadsAlike(sv, k, i);
      }
    }
  }

  lemma ReadsAlike(sv: Services, k: B.Key, i: nat)
    requires sv.scripted && B.NoDash(k.barrierId) && sv.Takes(k, i)
    ensures k.gid + "-" + k.branch == sv.gid + "-" + sv.number(i)
  {
    B.RedisKeyExactly(sv.prefix, k, sv.KeyOf(ActOf(i)));
    if B.OriginKey(k).Some? {
      B.RedisKeyExactly(sv.prefix, B.OriginKey(k).value, sv.KeyOf(ActOf(i)));
    }
  }

  /** So separable gids and branch numbers are enough. */
  lemma SeparableIsClear(sv: Services, sc: B.Scope)
    requires sv.others == OtherTransactions(sc, sv.gid) && sv.gid in sc.gids && sc.Separable()
    requires forall i :: sv.number(i) in sc.branches
    ensures sv.Clear()
  {
    ClearOfOthersExactly(sv, sc);
  }

  /** A message whose local transaction goes through the same barrier store keeps its promise exactly
      when none of its branches has the number under which the local transaction is recorded, and no
      refusal is kept: a plain first branch does have it. */
  lemma MessageWithLocalExactly(sv: Services)
    requires sv.Valid() && sv.others == iset{B.QueryKey(sv.gid)}
    ensures SucceedIsAllOnce(Msg, sv) <==>
            (forall i :: sv.number(i) != "01") && (!sv.scripted || !sv.forwardMayRefuse)
  {
    SucceedIsAllOnceExactly(Msg, sv);
    forall i: nat
      ensures sv.Takes(B.QueryKey(sv.gid), i) <==> sv.number(i) == "01"
    {
      LocalTakes(sv, i);
    }
  }

  lemma LocalTakes(sv: Services, i: nat)
    ensures sv.Takes(B.QueryKey(sv.gid), i) <==> sv.number(i) == "01"
  {
    var k, m := B.QueryKey(sv.gid), sv.KeyOf(ActOf(i));
    assert B.OriginKey(k) == None;
    B.RedisKeyExactly(sv.prefix, k, m);
    B.OneTransactionIsSeparable(sv.gid, iset{"01", sv.number(i)});
  }
}
