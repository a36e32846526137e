/** One round of the workflow driver in the form the source gives it: the loop that runs the function or
    rolls back, and the function itself, which opens its branches on a context. Both are proved to be
    runs of the step machine in Workflow, by worker 0. */
module WorkflowRound {
  import opened Types
  import opened Decisions
  import opened BranchIds
  import opened Workflow
  import opened WorkflowTheorems
  import R = Rounds
  import Runs = WorkflowRuns

  // ---------- the compensations ----------

  lemma WidthUnique(keys: set<nat>, n: nat)
    requires forall i :: i in keys ==> i < n
    requires n > 0 ==> n - 1 in keys
    ensures Width(keys) == n
  {
  }

  /** `compensate_states`, over the compensations that are stored. */
  method Compensations(undos: Undos) returns (col: seq<BranchStatus>)
    ensures col == Column(undos)
  {
    var n: nat := 0;
    var left := undos.Keys;
    while left != {}
      invariant left <= undos.Keys
      invariant forall k :: k in undos && k !in left && k <= MAX_BRANCH_INDEX ==> k < n
      invariant n > 0 ==> n - 1 in undos && n - 1 <= MAX_BRANCH_INDEX
      decreases left
    {
      var k :| k in left;
      if n <= k <= MAX_BRANCH_INDEX {
        n := k + 1;
      }
      left := left - {k};
    }
    WidthUnique(Legible(undos), n);
    col := seq(n, i requires 0 <= i < n =>
      if i in undos && i <= MAX_BRANCH_INDEX then undos[i].status else BranchStatus.Done);
  }

  // ---------- the worker and the step machine ----------

  /** The machine state with these rows, and with this session as number 0, alone. */
  ghost predicate At(s: State, status: GlobalStatus, acts: Acts, undos: Undos, me: Option<Session>) {
    && s.row == status && s.acts == acts && s.undos == undos
    && s.sessions == if me.Some? then map[0 := me.value] else map[]
  }

  lemma {:induction false} ExecAppend(c: Config, s: State, events: seq<Event>, tail: seq<Event>)
    requires Exec(c, s, events).Some?
    ensures Exec(c, s, events + tail) == Exec(c, Exec(c, s, events).value, tail)
    decreases |events|
  {
    if events == [] {
      assert [] + tail == tail;
    } else {
      assert (events + tail)[1..] == events[1..] + tail;
      ExecAppend(c, Step(c, s, events[0]).value, events[1..], tail);
    }
  }

  lemma ExecOne(c: Config, s: State, e: Event)
    ensures Exec(c, s, [e]) == Step(c, s, e)
  {
  }

  // ---------- one branch ----------

  lemma BodyReached(c: Config, s: State, got: seq<RunResult>, recorded: Acts, d: Decl)
    returns (tail: seq<Event>, body: State)
    requires s.sessions == map[0 := Session(Submitted, Running(got, recorded))] && d.k == |got| < c.width
    requires Allows(c.may, got, OpenBranch(d.name, d.undo)) && Consult(recorded, d.k, d.name) == RunBody
    ensures Exec(c, s, tail) == Some(body) && body == Runs.Opened(c.be, s, 0, got, recorded, d)
  {
    ExecOne(c, s, Branch(0, d.name, d.undo));
    tail := [Branch(0, d.name, d.undo)];
    body := StepBranch(c, s, 0, d.name, d.undo);
    if c.be == RedisBackend && !UndoClash(s.undos, d.k, d.undo) {
      Runs.EnlistCompletes(s, 0, body, got, recorded, d);
      ExecOne(c, body, Enlist(0));
      ExecAppend(c, s, tail, [Enlist(0)]);
      tail, body := tail + [Enlist(0)], StepEnlist(body, 0);
    } else {
      Runs.RegisterAtOnce(c.be, s, 0, got, recorded, d);
    }
  }

  /** Nothing is run: the branch hands back what is recorded, or that the run has diverged. */
  lemma HandedBack(c: Config, s: State, got: seq<RunResult>, recorded: Acts, name: string, undo: Option<string>,
                   r: RunResult)
    returns (s': State)
    requires s.sessions == map[0 := Session(Submitted, Running(got, recorded))]
    requires |got| < c.width && Allows(c.may, got, OpenBranch(name, undo))
    requires match Consult(recorded, |got|, name)
             case Diverges(was) => r == DivergedError(was, name)
             case Memo(d) => r == Value(d)
             case RunBody => false
    ensures Exec(c, s, [Branch(0, name, undo)]) == Some(s')
    ensures At(s', s.row, s.acts, s.undos, Some(Session(Submitted, Running(got + [r], recorded))))
  {
    ExecOne(c, s, Branch(0, name, undo));
    s' := StepBranch(c, s, 0, name, undo);
    assert s'.sessions == map[0 := s'.sessions[0]];
  }

  /** The branch is registered, and its body is run and answers. */
  lemma BodyRuns(c: Config, s: State, got: seq<RunResult>, recorded: Acts, d: Decl, reply: Reply, data: string)
    returns (tail: seq<Event>, s': State)
    requires s.sessions == map[0 := Session(Submitted, Running(got, recorded))] && d.k == |got| < c.width
    requires Allows(c.may, got, OpenBranch(d.name, d.undo)) && Consult(recorded, d.k, d.name) == RunBody
    ensures Exec(c, s, tail) == Some(s')
    ensures
      var (acts, undos) := Register(c.be, s.acts, s.undos, d.k, d.name, d.undo);
      At(s', s.row, Settle(acts, d.k, reply, data), undos,
         Some(Session(Submitted, Running(got + [ResultOf(reply, data)], recorded))))
  {
    var body;
    tail, body := BodyReached(c, s, got, recorded, d);
    s' := StepBody(body, 0, reply, data);
    ExecOne(c, body, Body(0, reply, data));
    ExecAppend(c, s, tail, [Body(0, reply, data)]);
    tail := tail + [Body(0, reply, data)];
    assert s'.sessions == map[0 := s'.sessions[0]];
  }

  /** What `run_with` does is what the machine does from opening the branch to the end of its body. */
  method OneBranch(ctx: WorkflowCtx, tables: Tables, next: Next, reply: Reply, data: string, ghost c: Config,
                   ghost s: State, ghost got: seq<RunResult>)
    returns (r: RunResult, ghost tail: seq<Event>, ghost s': State)
    requires ctx.be == c.be && ctx.next == |got| < c.width && next.OpenBranch? && Allows(c.may, got, next)
    requires At(s, s.row, tables.acts, tables.undos, Some(Session(Submitted, Running(got, ctx.recorded))))
    modifies ctx`next, tables
    ensures ctx.next == |got| + 1
    ensures Exec(c, s, tail) == Some(s')
    ensures At(s', s.row, tables.acts, tables.undos, Some(Session(Submitted, Running(got + [r], ctx.recorded))))
  {
    ghost var ran;
    r, ran := ctx.RunWith(tables, next.name, next.undo, reply, data);
    if Consult(ctx.recorded, |got|, next.name) == RunBody {
      tail, s' := BodyRuns(c, s, got, ctx.recorded, Decl(|got|, next.name, next.undo), reply, data);
    } else {
      s' := HandedBack(c, s, got, ctx.recorded, next.name, next.undo, r);
      tail := [Branch(0, next.name, next.undo)];
    }
  }

  // ---------- the function ----------

  /** The function is run from the top until it ends, or until it has opened as many branches as a run
      may; `replies` and `datas` are what the bodies answer. */
  method RunFunction(be: Backend, width: nat, p: Program, tables: Tables, replies: nat -> Reply, datas: nat -> string,
                     ghost c: Config, ghost s: State)
    returns (got: seq<RunResult>, ghost events: seq<Event>, ghost s': State)
    requires c.be == be && c.width == width && c.may == Behaviour.Runs(p)
    requires At(s, s.row, tables.acts, tables.undos, Some(Session(Submitted, Running([], tables.acts))))
    modifies tables
    ensures |got| <= width && (|got| == width || !p(got).OpenBranch?)
    ensures forall i :: 0 <= i < |got| ==> p(got[..i]).OpenBranch?
    ensures Exec(c, s, events) == Some(s')
    ensures At(s', s.row, tables.acts, tables.undos, Some(Session(Submitted, Running(got, old(tables.acts)))))
  {
    var ctx := new WorkflowCtx(be, tables);
    got, events, s' := [], [], s;
    while |got| < width && p(got).OpenBranch?
      invariant ctx.next == |got| <= width && fresh(ctx)
      invariant forall i :: 0 <= i < |got| ==> p(got[..i]).OpenBranch?
      invariant Exec(c, s, events) == Some(s')
      invariant At(s', s.row, tables.acts, tables.undos, Some(Session(Submitted, Running(got, ctx.recorded))))
      decreases width - |got|
    {
      var r, tail, after := OneBranch(ctx, tables, p(got), replies(|got|), datas(|got|), c, s', got);
      ExecAppend(c, s, events, tail);
      LongerPath(p, got, r);
      got, events, s' := got + [r], events + tail, after;
    }
  }

  lemma LongerPath(p: Program, got: seq<RunResult>, r: RunResult)
    requires p(got).OpenBranch? && forall i :: 0 <= i < |got| ==> p(got[..i]).OpenBranch?
    ensures forall i :: 0 <= i < |got| + 1 ==> p((got + [r])[..i]).OpenBranch?
  {
    forall i | 0 <= i < |got| + 1
      ensures (got + [r])[..i] == got[..i]
    {
    }
    assert got[..|got|] == got;
  }

  // ---------- the round ----------

  /** `Driver::transition`; `lands` says whether a caller's abort arrives just before the write. */
  method WriteStatus(store: R.Store, from: GlobalStatus, to: GlobalStatus, lands: bool, ghost c: Config, ghost s: State,
                     ghost acts: Acts, ghost undos: Undos, ghost path: seq<RunResult>)
    returns (ok: bool, ghost tail: seq<Event>, ghost s': State)
    requires store.tt == TransType.Workflow && store.status != Prepared && from != to
    requires from == Submitted || (from == Aborting && store.status == Aborting)
    requires At(s, store.status, acts, undos, Some(Session(from, Deciding(to, path))))
    modifies store`status
    ensures Exec(c, s, tail) == Some(s')
    ensures At(s', store.status, acts, undos, if ok && !to.IsFinal() then Some(Session(to, Reading)) else None)
    ensures
      var met := if lands && old(store.status) == Submitted then Aborting else old(store.status);
      (ok <==> met == from) && store.status == if ok then to else met
  {
    tail, s' := [], s;
    if lands && AbortGuard(store.status, store.tt) == TryWrite {
      tail, s' := [Abort], s.(row := Aborting);
      ExecOne(c, s, Abort);
    }
    if lands {
      store.Abort();
    }
    ghost var before := s';
    s' := WriteStep(c, before, from, to, path);
    ok := store.CompareAndWrite(from, to);
    ExecAppend(c, s, tail, [Write(0)]);
    tail := tail + [Write(0)];
  }

  lemma WriteStep(c: Config, s: State, from: GlobalStatus, to: GlobalStatus, path: seq<RunResult>) returns (s': State)
    requires s.sessions == map[0 := Session(from, Deciding(to, path))] && s.row != Prepared
    requires from == Submitted || (from == Aborting && s.row == Aborting)
    ensures Exec(c, s, [Write(0)]) == Some(s')
    ensures At(s', if s.row == from then to else s.row, s.acts, s.undos,
               if s.row == from && !to.IsFinal() then Some(Session(to, Reading)) else None)
  {
    ExecOne(c, s, Write(0));
    s' := StepWrite(c, s, 0);
    assert s'.sessions == map[] || s'.sessions == map[0 := Session(to, Reading)];
  }

  /** The function has ended, well or not: what the driver makes of it. */
  method AfterFunction(store: R.Store, next: Next, lands: bool, ghost c: Config, ghost s: State, ghost acts: Acts,
                       ghost undos: Undos, ghost got: seq<RunResult>, ghost recorded: Acts)
    returns (goOn: bool, ghost tail: seq<Event>, ghost s': State)
    requires store.tt == TransType.Workflow && store.status != Prepared
    requires next == Return || next == GiveUp ==> Allows(c.may, got, next)
    requires At(s, store.status, acts, undos, Some(Session(Submitted, Running(got, recorded))))
    modifies store`status
    ensures Exec(c, s, tail) == Some(s')
    ensures At(s', store.status, acts, undos, if goOn then Some(Session(Aborting, Reading)) else None)
    ensures goOn ==> next == GiveUp && store.status == Aborting
    ensures next != Return && next != GiveUp ==> store.status == old(store.status)
    ensures !lands && old(store.status) == Submitted ==>
      && (next == Return ==> store.status == Succeed)
      && (next == GiveUp ==> goOn)
  {
    goOn := false;
    match next {
      case Return =>
        ghost var ended := Put(s, 0, Submitted, Deciding(Succeed, got));
        ExecOne(c, s, Ends(0));
        assert ended.sessions == map[0 := Session(Submitted, Deciding(Succeed, got))];
        ghost var more;
        var ok;
        ok, more, s' := WriteStatus(store, Submitted, Succeed, lands, c, ended, acts, undos, got);
        ExecAppend(c, s, [Ends(0)], more);
        tail := [Ends(0)] + more;
      case GiveUp =>
        ghost var asked := Put(s, 0, Submitted, Deciding(Aborting, got));
        ExecOne(c, s, GivesUp(0));
        assert asked.sessions == map[0 := Session(Submitted, Deciding(Aborting, got))];
        ghost var more;
        goOn, more, s' := WriteStatus(store, Submitted, Aborting, lands, c, asked, acts, undos, got);
        ExecAppend(c, s, [GivesUp(0)], more);
        tail := [GivesUp(0)] + more;
      case _ =>
        tail, s' := [Leave(0)], Drop(s, 0);
        ExecOne(c, s, Leave(0));
        assert s'.sessions == map[];
    }
  }

  /** The function is run where the row is submitted. */
  method RunTurn(store: R.Store, be: Backend, width: nat, p: Program, tables: Tables, replies: nat -> Reply,
                 datas: nat -> string, lands: bool, ghost c: Config, ghost s: State)
    returns (goOn: bool, ended: Next, ghost tail: seq<Event>, ghost s': State)
    requires c.be == be && c.width == width && c.may == Behaviour.Runs(p)
    requires store.tt == TransType.Workflow && store.status != Prepared
    requires At(s, store.status, tables.acts, tables.undos, Some(Session(Submitted, Reading)))
    modifies store`status, tables
    ensures Exec(c, s, tail) == Some(s')
    ensures At(s', store.status, tables.acts, tables.undos, if goOn then Some(Session(Aborting, Reading)) else None)
    ensures goOn ==> ended == GiveUp && store.status == Aborting
    ensures ended != Return && ended != GiveUp ==> store.status == old(store.status)
    ensures !lands && old(store.status) == Submitted ==>
      (ended == Return ==> store.status == Succeed) && (ended == GiveUp ==> goOn)
  {
    ghost var begun := Put(s, 0, Submitted, Running([], s.acts));
    ExecOne(c, s, Read(0));
    Runs.ReadStartsRun(c, s, 0);
    assert begun.sessions == map[0 := Session(Submitted, Running([], s.acts))];
    var got;
    ghost var events, after;
    got, events, after := RunFunction(be, width, p, tables, replies, datas, c, begun);
    ended := p(got);
    ghost var more;
    goOn, more, s' := AfterFunction(store, ended, lands, c, after, tables.acts, tables.undos, got, s.acts);
    ExecAppend(c, s, [Read(0)], events);
    ExecAppend(c, s, [Read(0)] + events, more);
    tail := [Read(0)] + events + more;
  }

  lemma UndoSteps(c: Config, s: State, i: nat, r: Reply) returns (tail: seq<Event>, s': State)
    requires s.sessions == map[0 := Session(Aborting, Reading)] && i in s.undos
    requires WorkflowNext(Aborting, Column(s.undos)) == CallOne(i, Compensate)
    ensures Exec(c, s, tail) == Some(s')
    ensures At(s', s.row, s.acts,
               if r == Success then s.undos[i := s.undos[i].(status := BranchStatus.Done)] else s.undos,
               if r == Success then Some(Session(Aborting, Reading)) else None)
  {
    var called := StepRead(s, 0);
    ExecOne(c, s, Read(0));
    assert called.sessions == map[0 := Session(Aborting, Undoing(i))];
    s' := StepAnswer(called, 0, r);
    ExecOne(c, called, Answer(0, r));
    ExecAppend(c, s, [Read(0)], [Answer(0, r)]);
    tail := [Read(0)] + [Answer(0, r)];
    assert s'.sessions == map[] || s'.sessions == map[0 := Session(Aborting, Reading)];
  }

  /** One compensation is called; only Success goes on. */
  method UndoTurn(store: R.Store, tables: Tables, i: nat, r: Reply, ghost c: Config, ghost s: State)
    returns (ghost tail: seq<Event>, ghost s': State)
    requires store.status == Aborting && i in tables.undos
    requires WorkflowNext(Aborting, Column(tables.undos)) == CallOne(i, Compensate)
    requires At(s, Aborting, tables.acts, tables.undos, Some(Session(Aborting, Reading)))
    modifies tables
    ensures tables.acts == old(tables.acts)
    ensures
      var was := old(tables.undos);
      tables.undos == if r == Success then was[i := was[i].(status := BranchStatus.Done)] else was
    ensures Exec(c, s, tail) == Some(s')
    ensures At(s', Aborting, tables.acts, tables.undos, if r == Success then Some(Session(Aborting, Reading)) else None)
  {
    tail, s' := UndoSteps(c, s, i, r);
    if r == Success {
      tables.undos := tables.undos[i := tables.undos[i].(status := BranchStatus.Done)];
    }
  }

  /** Nothing is left to undo. */
  method FailTurn(store: R.Store, tables: Tables, lands: bool, ghost c: Config, ghost s: State)
    returns (ghost tail: seq<Event>, ghost s': State)
    requires store.tt == TransType.Workflow && store.status == Aborting
    requires WorkflowNext(Aborting, Column(tables.undos)) == Finish(Failed)
    requires At(s, Aborting, tables.acts, tables.undos, Some(Session(Aborting, Reading)))
    modifies store`status
    ensures Exec(c, s, tail) == Some(s') && store.status == Failed
    ensures At(s', Failed, tables.acts, tables.undos, None)
  {
    ghost var decided := StepRead(s, 0);
    ExecOne(c, s, Read(0));
    assert decided.sessions == map[0 := Session(Aborting, Deciding(Failed, []))];
    ghost var more;
    var ok;
    ok, more, s' := WriteStatus(store, Aborting, Failed, lands, c, decided, tables.acts, tables.undos, []);
    ExecAppend(c, s, [Read(0)], more);
    tail := [Read(0)] + more;
  }

  ghost function Open(undos: Undos): set<nat> {
    set i | i in Legible(undos) && undos[i].status != BranchStatus.Done
  }

  lemma OneLess(undos: Undos, i: nat)
    requires i in Open(undos)
    ensures |Open(undos[i := undos[i].(status := BranchStatus.Done)])| < |Open(undos)|
  {
    var undos' := undos[i := undos[i].(status := BranchStatus.Done)];
    assert Legible(undos') == Legible(undos);
    assert Open(undos') == Open(undos) - {i};
  }

  /** One turn of the rollback. */
  method RollbackTurn(store: R.Store, tables: Tables, r: Reply, lands: bool, ghost c: Config, ghost s: State)
    returns (goOn: bool, ghost tail: seq<Event>, ghost s': State)
    requires store.tt == TransType.Workflow && store.status == Aborting
    requires At(s, Aborting, tables.acts, tables.undos, Some(Session(Aborting, Reading)))
    modifies store`status, tables
    ensures tables.acts == old(tables.acts)
    ensures Exec(c, s, tail) == Some(s')
    ensures At(s', store.status, tables.acts, tables.undos, if goOn then Some(Session(Aborting, Reading)) else None)
    ensures goOn ==> store.status == Aborting && |Open(tables.undos)| < |Open(old(tables.undos))|
    ensures !goOn && r == Success ==> store.status == Failed && Open(tables.undos) == {}
    ensures !goOn ==> store.status == Aborting || (store.status == Failed && Open(tables.undos) == {})
  {
    var col := Compensations(tables.undos);
    DecidedUndo(tables.undos);
    goOn, tail, s' := false, [], s;
    match WorkflowNext(Aborting, col) {
      case CallOne(i, _) =>
        OneLess(tables.undos, i);
        tail, s' := UndoTurn(store, tables, i, r, c, s);
        goOn := r == Success;
      case Finish(_) =>
        tail, s' := FailTurn(store, tables, lands, c, s);
        assert Open(tables.undos) == {};
      case _ =>
    }
  }

  /** Where a round ends: an undisturbed one of a function that returns, succeeded; of one that asks for
      rollback, or of a row that aborts, failed with every legible compensation done, as long as they
      answer Success; and of a function that ends otherwise, where it was. */
  ghost predicate RoundEnds(was: GlobalStatus, ended: Option<Next>, row: GlobalStatus, undos: Undos, lands: bool,
                            smooth: bool)
  {
    && (ended.Some? <==> was == Submitted)
    && (ended.Some? && ended.value != Return && ended.value != GiveUp ==> row == Submitted)
    && (!lands && ended == Some(Return) ==> row == Succeed)
    && ((ended == None || (!lands && ended == Some(GiveUp))) && smooth ==> row == Failed && Open(undos) == {})
  }

  /** `process_workflow`: `undoReplies(k)` is the reply to the k-th compensation called, and `ended` how the
      function ended if it was run. */
  method ProcessWorkflow(store: R.Store, be: Backend, width: nat, p: Program, tables: Tables, replies: nat -> Reply,
                         datas: nat -> string, undoReplies: nat -> Reply, lands: bool, ghost c: Config, ghost s0: State)
    returns (ended: Option<Next>, ghost events: seq<Event>, ghost s1: State)
    requires c.be == be && c.width == width && c.may == Behaviour.Runs(p)
    requires store.tt == TransType.Workflow && (store.status == Submitted || store.status == Aborting)
    requires At(s0, store.status, tables.acts, tables.undos, Some(Session(store.status, Reading)))
    modifies store`status, tables
    ensures Exec(c, s0, events) == Some(s1)
    ensures At(s1, store.status, tables.acts, tables.undos, None)
    ensures RoundEnds(old(store.status), ended, store.status, tables.undos, lands,
                      forall k :: undoReplies(k) == Success)
  {
    ended, events, s1 := None, [], s0;
    var status, running := store.status, true;
    var called: nat := 0;
    ghost var smooth := forall k :: undoReplies(k) == Success;
    while running
      invariant status == Submitted || status == Aborting
      invariant Exec(c, s0, events) == Some(s1)
      invariant At(s1, store.status, tables.acts, tables.undos,
                   if running then Some(Session(status, Reading)) else None)
      invariant running ==> store.status == status
      invariant running ==> (if status == Submitted then ended == None && old(store.status) == Submitted
                             else ended == None <==> old(store.status) == Aborting)
      invariant running && ended.Some? ==> ended == Some(GiveUp)
      invariant !running ==> RoundEnds(old(store.status), ended, store.status, tables.undos, lands, smooth)
      decreases running, status == Submitted, |Open(tables.undos)|
    {
      ghost var tail, s;
      if status == Submitted {
        var next;
        running, next, tail, s := RunTurn(store, be, width, p, tables, replies, datas, lands, c, s1);
        ended, status := Some(next), Aborting;
      } else {
        running, tail, s := RollbackTurn(store, tables, undoReplies(called), lands, c, s1);
        called := called + 1;
      }
      ExecAppend(c, s0, events, tail);
      events, s1 := events + tail, s;
    }
  }
}
