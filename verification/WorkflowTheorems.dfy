/** What a workflow transaction keeps over every run: which compensations are stored and called,
    and what a replay may do again. */
module WorkflowTheorems {
  import opened Types
  import opened Decisions
  import opened BranchIds
  import opened Workflow

  // ---------- invariant with one runner at a time ----------

  /** From index n on, the rows read at the start of the run are still the ones in the table. */
  ghost predicate AgreeFrom(n: nat, recorded: Acts, acts: Acts) {
    forall k: nat :: k >= n ==>
      (k in recorded <==> k in acts) && (k in recorded && k in acts ==> recorded[k] == acts[k])
  }

  ghost predicate AllUndone(undos: Undos) {
    forall i :: i in Legible(undos) ==> undos[i].status == Done
  }

  ghost predicate SessionOk(s: State, me: Session) {
    && (me.status == Submitted || me.status == Aborting)
    && (s.row == me.status || s.row == Aborting)
    && (me.status == Submitted ==> s.undoCalled == {})
    && match me.pc
       case Reading => true
       case Running(got, recorded) => me.status == Submitted && AgreeFrom(|got|, recorded, s.acts)
       case Enlisting(got, recorded, name, undo) =>
         && me.status == Submitted && AgreeFrom(|got|, recorded, s.acts)
         && (|got| in s.acts ==> s.acts[|got|].name == name && s.acts[|got|].status != Done)
         && (undo.Some? ==> |got| in s.undos && s.undos[|got|].addr == undo.value)
       case InBody(got, recorded) =>
         && me.status == Submitted && AgreeFrom(|got| + 1, recorded, s.acts)
         && (|got| in s.acts ==> s.acts[|got|].status != Done)
       case Undoing(i) => me.status == Aborting && i in s.undoCalled
       case Deciding(to, path) =>
         || (me.status == Submitted && (to == Succeed || to == Aborting))
         || (me.status == Aborting && to == Failed && AllUndone(s.undos))
  }

  ghost predicate RollbackOk(s: State) {
    && s.undoAcked <= s.undoCalled <= s.undos.Keys
    && (s.undoCalled != {} ==> s.row == Aborting || s.row == Failed)
    && (forall i :: i in s.undos ==> s.undos[i].status == if i in s.undoAcked then Done else Pending)
    && (forall i, j :: i in s.undoCalled && i < j && j in Legible(s.undos) ==> j in s.undoAcked)
    && (forall i :: i in s.undoCalled ==> i <= MAX_BRANCH_INDEX)
  }

  ghost predicate RowOk(s: State) {
    && s.row != Prepared
    && (s.row == Failed ==> AllUndone(s.undos))
    && (forall x :: x in s.started ==> x.k in s.undos)
    && !s.reran
  }

  ghost predicate Inv(s: State) {
    && (forall v, w :: v in s.sessions && w in s.sessions ==> v == w)
    && (forall w :: w in s.sessions ==> SessionOk(s, s.sessions[w]))
    && (s.row.IsFinal() ==> s.sessions == map[])
    && RowOk(s)
    && RollbackOk(s)
  }

  lemma OnlyOne(s: State, w: nat)
    requires Inv(s) && w in s.sessions
    ensures s.sessions == map[w := s.sessions[w]] && s.sessions - {w} == map[]
  {
  }

  lemma DecidedUndo(undos: Undos)
    ensures
      match WorkflowNext(Aborting, Column(undos))
      case CallOne(i, op) =>
        op == Compensate && i in Legible(undos) && undos[i].status != Done
        && forall j :: j in Legible(undos) && j > i ==> undos[j].status == Done
      case Finish(t) => t == Failed && AllUndone(undos)
      case _ => false
  {
    var col := Column(undos);
    forall j | j in Legible(undos)
      ensures j < |col| && col[j] == undos[j].status
    {
    }
  }

  /** Deciding what to do next leaves the rows and the other sessions alone. */
  lemma ReadFrame(s: State, w: nat)
    requires w in s.sessions
    ensures
      var s' := StepRead(s, w);
      && s' == s.(sessions := s'.sessions, undoCalled := s'.undoCalled)
      && (forall v :: v in s'.sessions && v != w ==> v in s.sessions && s'.sessions[v] == s.sessions[v])
      && (w in s'.sessions ==> !s'.sessions[w].pc.Enlisting?)
  {
    match WorkflowNext(s.sessions[w].status, Column(s.undos))
    case RunWorkflow =>
    case CallOne(i, _) =>
    case Finish(t) =>
    case _ =>
  }

  lemma KeepRead(s: State, w: nat)
    requires Inv(s) && w in s.sessions && s.sessions[w].pc == Reading
    ensures Inv(StepRead(s, w))
  {
    OnlyOne(s, w);
    var st, s' := s.sessions[w].status, StepRead(s, w);
    if st == Submitted {
      assert s' == Put(s, w, st, Running([], s.acts));
      assert s'.sessions == map[w := Session(st, Running([], s.acts))];
    } else {
      KeepReadAborting(s, w);
    }
  }

  lemma KeepUndoing(s: State, s': State, w: nat, i: nat)
    requires Inv(s) && s.sessions == map[w := Session(Aborting, Reading)]
    requires i in Legible(s.undos) && forall j :: j in Legible(s.undos) && j > i ==> s.undos[j].status == Done
    requires s' == s.(sessions := s.sessions[w := Session(Aborting, Undoing(i))], undoCalled := s.undoCalled + {i})
    ensures Inv(s')
  {
    assert SessionOk(s, s.sessions[w]);
    assert s'.sessions == map[w := Session(Aborting, Undoing(i))];
  }

  lemma KeepReadAborting(s: State, w: nat)
    requires Inv(s) && s.sessions == map[w := Session(Aborting, Reading)]
    ensures Inv(StepRead(s, w))
  {
    DecidedUndo(s.undos);
    match WorkflowNext(Aborting, Column(s.undos)) {
      case CallOne(i, _) => KeepUndoing(s, StepRead(s, w), w, i);
      case Finish(t) => assert StepRead(s, w).sessions == map[w := Session(Aborting, Deciding(Failed, []))];
      case _ =>
    }
  }

  lemma KeepStart(s: State, w: nat, acts: Acts, undos: Undos, got: seq<RunResult>, recorded: Acts, undo: Option<string>)
    requires Inv(s) && w in s.sessions && s.sessions[w].status == Submitted
    requires AgreeFrom(|got| + 1, recorded, acts)
    requires |got| in s.acts ==> s.acts[|got|].status != Done
    requires |got| in acts ==> acts[|got|].status != Done
    requires undos == s.undos || (|got| !in s.undos && exists addr :: undos == s.undos[|got| := UndoRow(addr, Pending)])
    requires undo.Some? ==> |got| in undos
    ensures Inv(StartBody(s, w, acts, undos, got, recorded, undo))
  {
    OnlyOne(s, w);
    assert SessionOk(s, s.sessions[w]);
    var s' := StartBody(s, w, acts, undos, got, recorded, undo);
    assert s'.sessions == map[w := Session(Submitted, InBody(got, recorded))];
    assert s.undoAcked == {} && s.undoCalled == {};
  }

  lemma KeepRegister(be: Backend, s: State, w: nat, got: seq<RunResult>, recorded: Acts, name: string,
                     undo: Option<string>)
    requires Inv(s) && w in s.sessions && s.sessions[w] == Session(Submitted, Running(got, recorded))
    requires Consult(recorded, |got|, name) == RunBody
    ensures Inv(StepRegister(be, s, w, got, recorded, name, undo))
  {
    assert SessionOk(s, s.sessions[w]);
    if UndoClash(s.undos, |got|, undo) {
      KeepStart(s, w, s.acts, s.undos, got, recorded, undo);
    } else if be == SqlBackend {
      KeepStart(s, w, InsertAct(s.acts, |got|, name), InsertUndo(s.undos, |got|, undo), got, recorded, undo);
    } else {
      KeepEnlisting(s, w, got, recorded, name, undo);
    }
  }

  lemma KeepEnlisting(s: State, w: nat, got: seq<RunResult>, recorded: Acts, name: string, undo: Option<string>)
    requires Inv(s) && w in s.sessions && s.sessions[w] == Session(Submitted, Running(got, recorded))
    requires Consult(recorded, |got|, name) == RunBody && !UndoClash(s.undos, |got|, undo)
    ensures Inv(Put(s, w, Submitted, Enlisting(got, recorded, name, undo)).(undos := InsertUndo(s.undos, |got|, undo)))
  {
    OnlyOne(s, w);
    assert SessionOk(s, s.sessions[w]);
    var s' := Put(s, w, Submitted, Enlisting(got, recorded, name, undo)).(undos := InsertUndo(s.undos, |got|, undo));
    assert s'.sessions == map[w := Session(Submitted, Enlisting(got, recorded, name, undo))];
    assert s.undoAcked == {} && s.undoCalled == {};
  }

  lemma KeepEnlist(s: State, w: nat)
    requires Inv(s) && w in s.sessions && s.sessions[w].pc.Enlisting?
    ensures Inv(StepEnlist(s, w))
  {
    assert SessionOk(s, s.sessions[w]);
    var pc := s.sessions[w].pc;
    KeepStart(s, w, InsertAct(s.acts, |pc.got|, pc.name), s.undos, pc.got, pc.recorded, pc.undo);
  }

  lemma KeepBranch(c: Config, s: State, w: nat, name: string, undo: Option<string>)
    requires Inv(s) && w in s.sessions && s.sessions[w].pc.Running?
    ensures Inv(StepBranch(c, s, w, name, undo))
  {
    OnlyOne(s, w);
    var me, s' := s.sessions[w], StepBranch(c, s, w, name, undo);
    match Consult(me.pc.recorded, |me.pc.got|, name) {
      case Diverges(was) =>
        assert s'.sessions == map[w := Session(Submitted,
          Running(me.pc.got + [DivergedError(was, name)], me.pc.recorded))];
      case Memo(d) => assert s'.sessions == map[w := Session(Submitted,
        Running(me.pc.got + [Value(d)], me.pc.recorded))];
      case RunBody => KeepRegister(c.be, s, w, me.pc.got, me.pc.recorded, name, undo);
    }
  }

  lemma KeepBody(s: State, w: nat, r: Reply, data: string)
    requires Inv(s) && w in s.sessions && s.sessions[w].pc.InBody?
    ensures Inv(StepBody(s, w, r, data))
  {
    OnlyOne(s, w);
    var s' := StepBody(s, w, r, data);
    assert s'.sessions == map[w := s'.sessions[w]];
  }

  lemma KeepAnswer(s: State, w: nat, r: Reply)
    requires Inv(s) && w in s.sessions && s.sessions[w].pc.Undoing?
    ensures Inv(StepAnswer(s, w, r))
  {
    OnlyOne(s, w);
    var s' := StepAnswer(s, w, r);
    assert s'.undos.Keys == s.undos.Keys;
    assert s'.sessions == map[] || s'.sessions == map[w := Session(Aborting, Reading)];
  }

  /** Writing a status ends the session, or takes it back to reading; nothing but the row changes. */
  lemma WriteFrame(c: Config, s: State, w: nat)
    requires w in s.sessions && s.sessions[w].pc.Deciding?
    ensures
      var me, s' := s.sessions[w], StepWrite(c, s, w);
      && s' == s.(row := s'.row, sessions := s'.sessions, finished := s'.finished)
      && (if s'.row == s.row then true else s'.row == me.pc.to)
      && (s'.sessions == s.sessions - {w} ||
          (s'.row == me.pc.to && !me.pc.to.IsFinal() && s'.sessions == s.sessions[w := Session(me.pc.to, Reading)]))
      && (s'.sessions != s.sessions - {w} || s'.row == s.row || me.pc.to.IsFinal())
  {
  }

  lemma KeepWrite(c: Config, s: State, w: nat)
    requires Inv(s) && w in s.sessions && s.sessions[w].pc.Deciding?
    ensures Inv(StepWrite(c, s, w))
  {
    OnlyOne(s, w);
    WriteFrame(c, s, w);
    assert SessionOk(s, s.sessions[w]);
    Written(s, StepWrite(c, s, w), w);
  }

  lemma Written(s: State, s': State, w: nat)
    requires Inv(s) && s.sessions.Keys == {w} && s.sessions[w].pc.Deciding? && SessionOk(s, s.sessions[w])
    requires s' == s.(row := s'.row, sessions := s'.sessions, finished := s'.finished)
    requires s'.row == s.row || s'.row == s.sessions[w].pc.to
    requires s'.sessions == map[] || (s'.row == s.sessions[w].pc.to && !s.sessions[w].pc.to.IsFinal()
                                      && s'.sessions == map[w := Session(s.sessions[w].pc.to, Reading)])
    requires s'.sessions != map[] || s'.row == s.row || s.sessions[w].pc.to.IsFinal()
    ensures Inv(s')
  {
  }

  lemma StepKeeps(c: Config, s: State, e: Event)
    requires !c.overlap && Inv(s) && Step(c, s, e).Some?
    ensures Inv(Step(c, s, e).value)
  {
    match e
    case Read(w) => KeepRead(s, w);
    case Branch(w, name, undo) => KeepBranch(c, s, w, name, undo);
    case Enlist(w) => KeepEnlist(s, w);
    case Body(w, r, data) => KeepBody(s, w, r, data);
    case Answer(w, r) => KeepAnswer(s, w, r);
    case Write(w) => KeepWrite(c, s, w);
    case _ =>
  }

  lemma {:induction false} ExecInv(c: Config, s: State, events: seq<Event>)
    requires !c.overlap && Inv(s) && Exec(c, s, events).Some?
    ensures Inv(Exec(c, s, events).value)
    decreases |events|
  {
    if events != [] {
      StepKeeps(c, s, events[0]);
      ExecInv(c, Step(c, s, events[0]).value, events[1..]);
    }
  }

  lemma ReachableInv(c: Config, s: State)
    requires !c.overlap && Reachable(c, s)
    ensures Inv(s)
  {
    var events :| Exec(c, INIT, events) == Some(s);
    ExecInv(c, INIT, events);
  }

  // ---------- what holds however many runners there are ----------

  ghost predicate Loose(c: Config, s: State, me: Session) {
    && (me.status == Submitted || (me.status == Aborting && (s.row == Aborting || s.row == Failed)))
    && match me.pc
       case Reading => true
       case Running(got, _) => me.status == Submitted && |got| <= c.width
       case Enlisting(got, _, _, undo) =>
         me.status == Submitted && |got| < c.width && (undo.Some? ==> |got| in s.undos)
       case InBody(got, _) => me.status == Submitted && |got| < c.width
       case Undoing(i) => i in s.undoCalled
       case Deciding(to, _) => if me.status == Submitted then to == Succeed || to == Aborting else to == Failed
  }

  ghost predicate LooseInv(c: Config, s: State) {
    && (forall w :: w in s.sessions ==> Loose(c, s, s.sessions[w]))
    && s.row != Prepared
    && s.undoAcked <= s.undoCalled <= s.undos.Keys
    && (forall k :: k in s.undos ==> k < c.width)
    && (c.be == RedisBackend ==> forall x :: x in s.started ==> x.k in s.undos)
  }

  predicate Edge(a: GlobalStatus, b: GlobalStatus) {
    || a == b
    || (a == Submitted && (b == Succeed || b == Aborting))
    || (a == Aborting && b == Failed)
  }

  /** A step of one session leaves the others as they were. */
  lemma LooseOthers(c: Config, s: State, s': State, w: nat)
    requires forall v :: v in s.sessions ==> Loose(c, s, s.sessions[v])
    requires forall v :: v in s'.sessions && v != w ==> v in s.sessions && s'.sessions[v] == s.sessions[v]
    requires w in s'.sessions ==> Loose(c, s', s'.sessions[w])
    requires Edge(s.row, s'.row) && s.undoCalled <= s'.undoCalled && s.undos.Keys <= s'.undos.Keys
    ensures forall v :: v in s'.sessions ==> Loose(c, s', s'.sessions[v])
  {
  }

  lemma LooseRead(c: Config, s: State, w: nat)
    requires LooseInv(c, s) && w in s.sessions && s.sessions[w].pc == Reading
    ensures LooseInv(c, StepRead(s, w))
  {
    assert Loose(c, s, s.sessions[w]);
    ReadFrame(s, w);
    LooseDecided(c, s, w);
    LooseOthers(c, s, StepRead(s, w), w);
  }

  lemma LooseDecided(c: Config, s: State, w: nat)
    requires w in s.sessions && Loose(c, s, s.sessions[w])
    ensures
      var s' := StepRead(s, w);
      && (w in s'.sessions ==> Loose(c, s', s'.sessions[w]))
      && s.undoCalled <= s'.undoCalled <= s.undoCalled + s.undos.Keys
  {
    DecidedUndo(s.undos);
    match WorkflowNext(s.sessions[w].status, Column(s.undos))
    case RunWorkflow =>
    case CallOne(i, _) => assert StepRead(s, w).undoCalled == s.undoCalled + {i};
    case _ =>
  }

  lemma LooseStart(c: Config, s: State, w: nat, acts: Acts, undos: Undos, got: seq<RunResult>, recorded: Acts,
                   undo: Option<string>)
    requires LooseInv(c, s) && w in s.sessions && s.sessions[w].status == Submitted && |got| < c.width
    requires undos == s.undos || undos == InsertUndo(s.undos, |got|, undo)
    requires c.be == RedisBackend && undo.Some? ==> |got| in undos
    ensures LooseInv(c, StartBody(s, w, acts, undos, got, recorded, undo))
  {
    LooseOthers(c, s, StartBody(s, w, acts, undos, got, recorded, undo), w);
  }

  lemma LooseRegister(c: Config, s: State, w: nat, got: seq<RunResult>, recorded: Acts, name: string,
                      undo: Option<string>)
    requires LooseInv(c, s) && w in s.sessions && s.sessions[w].status == Submitted && |got| < c.width
    ensures LooseInv(c, StepRegister(c.be, s, w, got, recorded, name, undo))
  {
    if UndoClash(s.undos, |got|, undo) {
      LooseStart(c, s, w, s.acts, s.undos, got, recorded, undo);
    } else if c.be == SqlBackend {
      var (acts, undos) := Register(c.be, s.acts, s.undos, |got|, name, undo);
      LooseStart(c, s, w, acts, undos, got, recorded, undo);
    } else {
      LooseOthers(c, s, StepRegister(c.be, s, w, got, recorded, name, undo), w);
    }
  }

  lemma LooseBranch(c: Config, s: State, w: nat, name: string, undo: Option<string>)
    requires LooseInv(c, s) && w in s.sessions && s.sessions[w].pc.Running? && |s.sessions[w].pc.got| < c.width
    ensures LooseInv(c, StepBranch(c, s, w, name, undo)) && StepBranch(c, s, w, name, undo).row == s.row
  {
    var me := s.sessions[w];
    assert Loose(c, s, me);
    if Consult(me.pc.recorded, |me.pc.got|, name) == RunBody {
      LooseRegister(c, s, w, me.pc.got, me.pc.recorded, name, undo);
    } else {
      HandedFrame(c, s, w, name, undo);
      LooseOthers(c, s, StepBranch(c, s, w, name, undo), w);
    }
  }

  /** A branch that does not run its body only moves its session on. */
  lemma HandedFrame(c: Config, s: State, w: nat, name: string, undo: Option<string>)
    requires w in s.sessions && s.sessions[w].pc.Running?
    requires Consult(s.sessions[w].pc.recorded, |s.sessions[w].pc.got|, name) != RunBody
    ensures
      var me, s' := s.sessions[w], StepBranch(c, s, w, name, undo);
      && s' == s.(sessions := s'.sessions, diverged := s'.diverged)
      && w in s'.sessions && s'.sessions == s.sessions[w := Session(me.status, s'.sessions[w].pc)]
      && s'.sessions[w].pc.Running? && |s'.sessions[w].pc.got| == |me.pc.got| + 1
  {
  }

  lemma LooseEnlist(c: Config, s: State, w: nat)
    requires LooseInv(c, s) && w in s.sessions && s.sessions[w].pc.Enlisting?
    ensures LooseInv(c, StepEnlist(s, w))
  {
    assert Loose(c, s, s.sessions[w]);
    var pc := s.sessions[w].pc;
    LooseStart(c, s, w, InsertAct(s.acts, |pc.got|, pc.name), s.undos, pc.got, pc.recorded, pc.undo);
  }

  lemma LooseBody(c: Config, s: State, w: nat, r: Reply, data: string)
    requires LooseInv(c, s) && w in s.sessions && s.sessions[w].pc.InBody?
    ensures LooseInv(c, StepBody(s, w, r, data)) && StepBody(s, w, r, data).row == s.row
  {
    LooseOthers(c, s, StepBody(s, w, r, data), w);
  }

  lemma LooseAnswer(c: Config, s: State, w: nat, r: Reply)
    requires LooseInv(c, s) && w in s.sessions && s.sessions[w].pc.Undoing?
    ensures LooseInv(c, StepAnswer(s, w, r)) && StepAnswer(s, w, r).row == s.row
  {
    assert StepAnswer(s, w, r).undos.Keys == s.undos.Keys;
    LooseOthers(c, s, StepAnswer(s, w, r), w);
  }

  lemma LooseWrite(c: Config, s: State, w: nat)
    requires LooseInv(c, s) && w in s.sessions && s.sessions[w].pc.Deciding?
    ensures LooseInv(c, StepWrite(c, s, w)) && Edge(s.row, StepWrite(c, s, w).row)
  {
    WriteFrame(c, s, w);
    LooseOthers(c, s, StepWrite(c, s, w), w);
  }

  lemma LooseStep(c: Config, s: State, e: Event)
    requires LooseInv(c, s) && Step(c, s, e).Some?
    ensures LooseInv(c, Step(c, s, e).value) && Edge(s.row, Step(c, s, e).value.row)
  {
    match e
    case Read(w) => LooseRead(c, s, w);
    case Branch(w, name, undo) => LooseBranch(c, s, w, name, undo);
    case Write(w) => LooseWrite(c, s, w);
    case Abort => LooseOthers(c, s, s.(row := Aborting), 0);
    case Enlist(w) => LooseEnlist(c, s, w);
    case Body(w, r, data) => LooseBody(c, s, w, r, data);
    case Answer(w, r) => LooseAnswer(c, s, w, r);
    case Lock(w) => LooseOthers(c, s, Put(s, w, s.row, Reading), w);
    case Leave(w) => LooseOthers(c, s, Drop(s, w), w);
    case _ => LooseOthers(c, s, Step(c, s, e).value, e.w);
  }

  lemma {:induction false} LooseExec(c: Config, s: State, events: seq<Event>)
    requires LooseInv(c, s) && Exec(c, s, events).Some?
    ensures LooseInv(c, Exec(c, s, events).value)
    decreases |events|
  {
    if events != [] {
      LooseStep(c, s, events[0]);
      LooseExec(c, Step(c, s, events[0]).value, events[1..]);
    }
  }

  lemma ReachableLoose(c: Config, s: State)
    requires Reachable(c, s)
    ensures LooseInv(c, s)
  {
    var events :| Exec(c, INIT, events) == Some(s);
    LooseExec(c, INIT, events);
  }

  /** With any number of runners, and although Redis ends a rollback without comparing, the status
      of a workflow only moves Submitted to Succeed or Aborting, and Aborting to Failed. */
  lemma StatusOrder(c: Config, s: State, e: Event)
    requires Reachable(c, s) && Step(c, s, e).Some?
    ensures Edge(s.row, Step(c, s, e).value.row)
  {
    ReachableLoose(c, s);
    LooseStep(c, s, e);
  }

  /** Once an abort has landed, no continuation of the run ends in Succeed. */
  lemma {:induction false} AbortHolds(c: Config, s: State, events: seq<Event>)
    requires Reachable(c, s) && Step(c, s, Abort).Some?
    requires Exec(c, Step(c, s, Abort).value, events).Some?
    ensures var row := Exec(c, Step(c, s, Abort).value, events).value.row; row == Aborting || row == Failed
  {
    ReachableLoose(c, s);
    LooseStep(c, s, Abort);
    RollbackAbsorbs(c, Step(c, s, Abort).value, events);
  }

  lemma {:induction false} RollbackAbsorbs(c: Config, s: State, events: seq<Event>)
    requires LooseInv(c, s) && (s.row == Aborting || s.row == Failed) && Exec(c, s, events).Some?
    ensures var row := Exec(c, s, events).value.row; row == Aborting || row == Failed
    decreases |events|
  {
    if events != [] {
      LooseStep(c, s, events[0]);
      RollbackAbsorbs(c, Step(c, s, events[0]).value, events[1..]);
    }
  }

  /** The write Redis makes without comparing leaves the row as the comparison would. */
  lemma BlindWriteAgrees(c: Config, s: State, w: nat)
    requires Reachable(c, s) && w in s.sessions && s.sessions[w].pc.Deciding?
    ensures
      var me := s.sessions[w];
      StepWrite(c, s, w).row == if s.row == me.status then me.pc.to else s.row
  {
    ReachableLoose(c, s);
  }
}
