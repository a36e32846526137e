/** Building runs of a workflow: how a worker gets a function to a given branch, how it gets there
    again after a crash, and how a rollback gets to its end. */
module WorkflowRuns {
  import opened Types
  import opened Decisions
  import opened Workflow
  import opened WorkflowTheorems

  lemma {:induction false} ExecSnoc(c: Config, s: State, events: seq<Event>, e: Event)
    requires Exec(c, s, events).Some?
    ensures Exec(c, s, events + [e]) == Step(c, Exec(c, s, events).value, e)
    decreases |events|
  {
    if events == [] {
      assert ([] + [e])[1..] == [];
    } else {
      assert (events + [e])[1..] == events[1..] + [e];
      ExecSnoc(c, Step(c, s, events[0]).value, events[1..], e);
    }
  }

  lemma Then(c: Config, s: State, e: Event) returns (s': State)
    requires Reachable(c, s) && Step(c, s, e).Some?
    ensures Reachable(c, s') && Step(c, s, e) == Some(s')
  {
    var events :| Exec(c, INIT, events) == Some(s);
    ExecSnoc(c, INIT, events, e);
    s' := Step(c, s, e).value;
    assert Exec(c, INIT, events + [e]) == Some(s');
  }

  // ---------- starting ----------

  lemma ReadStartsRun(c: Config, s: State, w: nat)
    requires w in s.sessions && s.sessions[w] == Session(Submitted, Reading)
    ensures Step(c, s, Read(w)) == Some(Put(s, w, Submitted, Running([], s.acts)))
  {
  }

  const FRESH: Session := Session(Submitted, Running([], map[]))

  lemma OneRunner(c: Config) returns (s: State)
    ensures Reachable(c, s) && s == INIT.(sessions := map[0 := FRESH])
  {
    assert Exec(c, INIT, []) == Some(INIT);
    s := Then(c, INIT, Lock(0));
    assert s.sessions == map[0 := Session(Submitted, Reading)];
    s := Then(c, s, Read(0));
    assert s.sessions == map[0 := FRESH];
  }

  /** Two workers run the function from the top at the same time. */
  lemma TwoRunners(c: Config) returns (s: State)
    requires c.overlap
    ensures Reachable(c, s) && s == INIT.(sessions := map[0 := FRESH, 1 := FRESH])
  {
    s := OneRunner(c);
    s := Then(c, s, Lock(1));
    assert s.sessions == map[0 := FRESH, 1 := Session(Submitted, Reading)];
    s := Then(c, s, Read(1));
    assert s.sessions == map[0 := FRESH, 1 := FRESH];
  }

  /** The only worker crashes, and the function is run again from the top. */
  lemma Restart(c: Config, s: State) returns (s': State)
    requires Reachable(c, s) && s.sessions.Keys == {0} && s.row == Submitted
    ensures Reachable(c, s') && s' == s.(sessions := map[0 := Session(Submitted, Running([], s.acts))])
  {
    s' := Then(c, s, Leave(0));
    assert s'.sessions == map[];
    s' := Then(c, s', Lock(0));
    assert s'.sessions == map[0 := Session(Submitted, Reading)];
    s' := Then(c, s', Read(0));
    assert s'.sessions == map[0 := Session(Submitted, Running([], s.acts))];
  }

  // ---------- one branch ----------

  ghost predicate CanOpen(c: Config, s: State, w: nat, d: Decl) {
    && w in s.sessions && s.sessions[w].pc.Running?
    && d.k == |s.sessions[w].pc.got| < c.width
    && Allows(c.may, s.sessions[w].pc.got, OpenBranch(d.name, d.undo))
  }

  function Kept(d: Decl): set<Promise> {
    if d.undo.Some? then {Promise(d.k, d.undo.value)} else {}
  }

  /** Opening a branch that has to run its body, up to the body. */
  lemma OpenOne(c: Config, s: State, w: nat, d: Decl) returns (s': State)
    requires Reachable(c, s) && CanOpen(c, s, w, d)
    requires Consult(s.sessions[w].pc.recorded, d.k, d.name) == RunBody
    ensures Reachable(c, s')
    ensures
      s' == Opened(c.be, s, w, s.sessions[w].pc.got, s.sessions[w].pc.recorded, d)
  {
    var got, recorded := s.sessions[w].pc.got, s.sessions[w].pc.recorded;
    s' := Then(c, s, Branch(w, d.name, d.undo));
    if c.be == RedisBackend && !UndoClash(s.undos, d.k, d.undo) {
      EnlistCompletes(s, w, s', got, recorded, d);
      s' := Then(c, s', Enlist(w));
    } else {
      RegisterAtOnce(c.be, s, w, got, recorded, d);
    }
  }

  function Opened(be: Backend, s: State, w: nat, got: seq<RunResult>, recorded: Acts, d: Decl): State
    requires w in s.sessions
  {
    var (acts, undos) := Register(be, s.acts, s.undos, d.k, d.name, d.undo);
    s.(acts := acts, undos := undos, started := s.started + Kept(d),
       sessions := s.sessions[w := Session(s.sessions[w].status, InBody(got, recorded))],
       reran := s.reran || (d.k in s.acts && s.acts[d.k].status == Done))
  }

  lemma RegisterAtOnce(be: Backend, s: State, w: nat, got: seq<RunResult>, recorded: Acts, d: Decl)
    requires w in s.sessions && d.k == |got|
    requires be == SqlBackend || UndoClash(s.undos, d.k, d.undo)
    ensures StepRegister(be, s, w, got, recorded, d.name, d.undo) == Opened(be, s, w, got, recorded, d)
  {
    assert s.started + {} == s.started;
  }

  lemma EnlistCompletes(s: State, w: nat, mid: State, got: seq<RunResult>, recorded: Acts, d: Decl)
    requires w in s.sessions && d.k == |got| && !UndoClash(s.undos, d.k, d.undo)
    requires mid == StepRegister(RedisBackend, s, w, got, recorded, d.name, d.undo)
    ensures w in mid.sessions && mid.sessions[w].pc == Enlisting(got, recorded, d.name, d.undo)
    ensures StepEnlist(mid, w) == Opened(RedisBackend, s, w, got, recorded, d)
  {
    assert s.started + {} == s.started;
    var st := s.sessions[w].status;
    assert mid.sessions[w := Session(st, InBody(got, recorded))] == s.sessions[w := Session(st, InBody(got, recorded))];
  }

  lemma AnswerBody(c: Config, s: State, w: nat, r: Reply, data: string) returns (s': State)
    requires Reachable(c, s) && w in s.sessions && s.sessions[w].pc.InBody?
    ensures Reachable(c, s') && s' == StepBody(s, w, r, data)
  {
    s' := Then(c, s, Body(w, r, data));
  }

  // ---------- getting to a branch ----------

  /** The function opens some branch at every position below the width. */
  ghost predicate Declared(c: Config) {
    c.may.Declares? && forall k: nat :: k < c.width ==> DeclaredAt(c.may.decls, k)
  }

  ghost predicate DeclaredAt(decls: iset<Decl>, k: nat) {
    exists d :: d in decls && d.k == k
  }

  ghost function Pick(c: Config, k: nat): (d: Decl)
    requires Declared(c) && k < c.width
    ensures d in c.may.decls && d.k == k
  {
    assert DeclaredAt(c.may.decls, k);
    var d :| d in c.may.decls && d.k == k;
    d
  }

  /** Below position n the rows are those of the picked branches. */
  ghost predicate Picked(c: Config, acts: Acts, n: nat)
    requires Declared(c) && n <= c.width
  {
    forall k :: k in acts && k < n ==> acts[k].name == Pick(c, k).name
  }

  /** What a walk over the first n branches leaves alone. */
  ghost predicate Walked(c: Config, s: State, s': State, w: nat, n: nat) {
    && s' == s.(acts := s'.acts, undos := s'.undos, started := s'.started, sessions := s'.sessions,
                outputs := s'.outputs, reran := s'.reran, lost := s'.lost)
    && s'.sessions.Keys == s.sessions.Keys
    && (forall v :: v in s.sessions && v != w ==> s'.sessions[v] == s.sessions[v])
    && (forall k :: k >= n ==> (k in s'.acts <==> k in s.acts) && (k in s.acts ==> s'.acts[k] == s.acts[k]))
    && (forall k :: k in s.undos ==> k in s'.undos && s'.undos[k] == s.undos[k])
    && (forall k :: k in s'.undos ==> k in s.undos || k < n)
  }

  lemma WalkedOn(c: Config, s: State, mid: State, s': State, w: nat, n: nat)
    requires w in s.sessions && Walked(c, s, mid, w, n) && Walked(c, mid, s', w, n + 1)
    ensures Walked(c, s, s', w, n + 1)
  {
  }

  /** One more branch, with its body if it has no stored result. */
  lemma WalkOne(c: Config, s: State, w: nat, got: seq<RunResult>, recorded: Acts, d: Decl)
    returns (s': State, r: RunResult)
    requires Reachable(c, s) && CanOpen(c, s, w, d) && s.sessions[w] == Session(Submitted, Running(got, recorded))
    requires d.k in recorded ==> recorded[d.k].name == d.name
    requires d.k in s.acts ==> s.acts[d.k].name == d.name
    ensures Reachable(c, s') && Walked(c, s, s', w, d.k + 1)
    ensures s'.sessions == s.sessions[w := Session(Submitted, Running(got + [r], recorded))]
    ensures forall k :: k in s'.acts ==>
      if k == d.k then s'.acts[k].name == d.name else k in s.acts && s'.acts[k] == s.acts[k]
  {
    if Consult(recorded, d.k, d.name) == RunBody {
      r := Value("");
      var mid := OpenOne(c, s, w, d);
      s' := AnswerBody(c, mid, w, Success, "");
      assert s'.sessions == s.sessions[w := Session(Submitted, Running(got + [r], recorded))];
      assert s' == s.(acts := s'.acts, undos := s'.undos, started := s'.started, sessions := s'.sessions,
                      outputs := s'.outputs, reran := s'.reran, lost := s'.lost);
    } else {
      r := Value(recorded[d.k].data);
      s' := Then(c, s, Branch(w, d.name, d.undo));
    }
  }

  /** Any worker at the top of the function gets to position n, running bodies or not. */
  lemma {:induction false} Walk(c: Config, s: State, w: nat, recorded: Acts, n: nat)
    returns (s': State, got: seq<RunResult>)
    requires Reachable(c, s) && Declared(c) && n <= c.width
    requires w in s.sessions && s.sessions[w] == Session(Submitted, Running([], recorded))
    requires Picked(c, recorded, n) && Picked(c, s.acts, n)
    ensures Reachable(c, s') && Walked(c, s, s', w, n) && Picked(c, s'.acts, n)
    ensures |got| == n && s'.sessions[w] == Session(Submitted, Running(got, recorded))
    decreases n
  {
    if n == 0 {
      s', got := s, [];
    } else {
      var mid, r;
      mid, got := Walk(c, s, w, recorded, n - 1);
      s', r := WalkOne(c, mid, w, got, recorded, Pick(c, n - 1));
      got := got + [r];
      WalkedOn(c, s, mid, s', w, n - 1);
    }
  }

  // ---------- rolling back ----------

  ghost function StillToUndo(s: State): set<nat> {
    set i | i in Legible(s.undos) && s.undos[i].status != Done
  }

  /** The events of one worker that rolls back: nobody else moves. */
  predicate Own(w: nat, e: Event) {
    e == Lock(w) || e == Read(w) || e == GivesUp(w) || e == Write(w) || (e.Answer? && e.w == w)
  }

  ghost predicate Alone(c: Config, s: State, w: nat, s': State) {
    exists events :: (forall e :: e in events ==> Own(w, e)) && Exec(c, s, events) == Some(s')
  }

  lemma Begin(c: Config, s: State, w: nat)
    ensures Alone(c, s, w, s)
  {
    assert Exec(c, s, []) == Some(s);
  }

  lemma Go(c: Config, s0: State, s: State, w: nat, e: Event) returns (s': State)
    requires Reachable(c, s) && Alone(c, s0, w, s) && Own(w, e) && Step(c, s, e).Some?
    ensures Reachable(c, s') && Alone(c, s0, w, s') && Step(c, s, e) == Some(s')
  {
    s' := Then(c, s, e);
    var events :| (forall e :: e in events ==> Own(w, e)) && Exec(c, s0, events) == Some(s);
    ExecSnoc(c, s0, events, e);
    assert forall f :: f in events + [e] ==> Own(w, f);
  }

  /** One compensation is called and acknowledged. */
  lemma UndoOne(c: Config, s0: State, s: State, w: nat, i: nat) returns (s': State)
    requires Reachable(c, s) && Alone(c, s0, w, s) && w in s.sessions && s.sessions[w] == Session(Aborting, Reading)
    requires i in s.undos && WorkflowNext(Aborting, Column(s.undos)) == CallOne(i, Compensate)
    ensures Reachable(c, s') && Alone(c, s0, w, s')
    ensures s' == s.(undos := s.undos[i := s.undos[i].(status := Done)],
                     undoCalled := s.undoCalled + {i}, undoAcked := s.undoAcked + {i})
  {
    UndoSteps(c, s, w, i);
    var mid := Go(c, s0, s, w, Read(w));
    s' := Go(c, s0, mid, w, Answer(w, Success));
  }

  lemma UndoSteps(c: Config, s: State, w: nat, i: nat)
    requires w in s.sessions && s.sessions[w] == Session(Aborting, Reading) && i in s.undos
    requires WorkflowNext(Aborting, Column(s.undos)) == CallOne(i, Compensate)
    ensures
      var mid := Put(s, w, Aborting, Undoing(i)).(undoCalled := s.undoCalled + {i});
      && Step(c, s, Read(w)) == Some(mid)
      && Step(c, mid, Answer(w, Success)) == Some(s.(
           undos := s.undos[i := s.undos[i].(status := Done)],
           undoCalled := s.undoCalled + {i}, undoAcked := s.undoAcked + {i}))
  {
    var mid := Put(s, w, Aborting, Undoing(i)).(undoCalled := s.undoCalled + {i});
    assert StepRead(s, w) == mid;
    assert StepAnswer(mid, w, Success).sessions == s.sessions;
  }

  lemma LastUndone(c: Config, s0: State, s: State, w: nat) returns (s': State)
    requires Reachable(c, s) && Alone(c, s0, w, s)
    requires w in s.sessions && s.sessions[w] == Session(Aborting, Reading) && s.row == Aborting
    requires WorkflowNext(Aborting, Column(s.undos)) == Finish(Failed)
    ensures Reachable(c, s') && Alone(c, s0, w, s') && s' == s.(row := Failed, sessions := s.sessions - {w})
  {
    var mid := Go(c, s0, s, w, Read(w));
    assert mid.sessions[w] == Session(Aborting, Deciding(Failed, []));
    s' := Go(c, s0, mid, w, Write(w));
    assert s'.sessions == s.sessions - {w};
  }

  /** What a rollback leaves: every legible compensation is done, and those that were not have been
      called and acknowledged; nothing else has changed. */
  ghost predicate RolledBack(s: State, s': State, w: nat) {
    && s' == s.(row := Failed, sessions := s.sessions - {w}, undos := s'.undos,
                undoCalled := s.undoCalled + StillToUndo(s), undoAcked := s.undoAcked + StillToUndo(s))
    && s'.undos.Keys == s.undos.Keys
    && forall i :: i in s.undos ==>
         s'.undos[i] == if i in StillToUndo(s) then s.undos[i].(status := Done) else s.undos[i]
  }

  lemma UndoneOn(s: State, next: State, s': State, w: nat, i: nat)
    requires i in StillToUndo(s) && RolledBack(next, s', w)
    requires next == s.(undos := s.undos[i := s.undos[i].(status := Done)],
                        undoCalled := s.undoCalled + {i}, undoAcked := s.undoAcked + {i})
    ensures RolledBack(s, s', w)
  {
    assert next.undos.Keys == s.undos.Keys;
    assert Legible(next.undos) == Legible(s.undos);
    assert StillToUndo(s) == StillToUndo(next) + {i};
  }

  /** A worker that has a rollback before it can bring it to its end on its own. */
  lemma {:induction false} RollbackCompletes(c: Config, s0: State, s: State, w: nat) returns (s': State)
    requires Reachable(c, s) && Alone(c, s0, w, s)
    requires w in s.sessions && s.sessions[w] == Session(Aborting, Reading) && s.row == Aborting
    ensures Reachable(c, s') && Alone(c, s0, w, s') && RolledBack(s, s', w)
    decreases StillToUndo(s)
  {
    DecidedUndo(s.undos);
    match WorkflowNext(Aborting, Column(s.undos)) {
      case CallOne(i, _) =>
        var next := UndoOne(c, s0, s, w, i);
        assert next.undos.Keys == s.undos.Keys;
        assert Legible(next.undos) == Legible(s.undos) && StillToUndo(next) <= StillToUndo(s) &&
          i !in StillToUndo(next);
        s' := RollbackCompletes(c, s0, next, w);
        UndoneOn(s, next, s', w, i);
      case Finish(_) =>
        s' := LastUndone(c, s0, s, w);
        assert StillToUndo(s) == {};
      case _ => s' := s;
    }
  }

  /** A function that asks for rollback gets it: from every reachable state in which it may ask, on a
      row that is still submitted, the same worker writes the row aborting, and calls and acknowledges
      every compensation that is registered and legible, to Failed. */
  lemma GivesUpRollsBack(c: Config, s: State, w: nat) returns (s': State)
    requires Reachable(c, s) && w in s.sessions && s.sessions[w].status == Submitted && s.row == Submitted
    requires s.sessions[w].pc.Running? && Allows(c.may, s.sessions[w].pc.got, GiveUp)
    ensures Reachable(c, s') && Alone(c, s, w, s') && RolledBack(s, s', w)
  {
    Begin(c, s, w);
    var asked := Go(c, s, s, w, GivesUp(w));
    assert asked.sessions[w] == Session(Submitted, Deciding(Aborting, s.sessions[w].pc.got));
    var aborting := Go(c, s, asked, w, Write(w));
    assert aborting.sessions[w] == Session(Aborting, Reading);
    s' := RollbackCompletes(c, s, aborting, w);
    assert StillToUndo(aborting) == StillToUndo(s);
    assert aborting.sessions - {w} == s.sessions - {w};
  }

  /** A row that aborts, for whatever reason, can be rolled back by any worker that locks it. */
  lemma AbortingRowEnds(c: Config, s: State, w: nat) returns (s': State)
    requires Reachable(c, s) && s.row == Aborting && w !in s.sessions && (c.overlap || s.sessions == map[])
    ensures Reachable(c, s') && Alone(c, s, w, s') && RolledBack(s, s', w)
  {
    Begin(c, s, w);
    var locked := Go(c, s, s, w, Lock(w));
    assert locked.sessions[w] == Session(Aborting, Reading);
    s' := RollbackCompletes(c, s, locked, w);
    assert StillToUndo(locked) == StillToUndo(s) && locked.sessions - {w} == s.sessions - {w};
  }
}
