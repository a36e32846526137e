/** What makes a workflow roll back, and what a rollback leaves. */
module WorkflowRollback {
  import opened Types
  import opened Workflow
  import opened WorkflowTheorems
  import opened WorkflowCrashFree
  import opened WorkflowReplay
  import Runs = WorkflowRuns

  // ---------- what counts ----------

  /** Only a definite answer leaves a trace: a result is added when a body answers Success, and a
      compensation counts as acknowledged when its call answers Success. Every other event, with any
      other answer, adds neither. */
  lemma OnlySuccessCounts(c: Config, s: State, e: Event)
    requires Step(c, s, e).Some?
    ensures
      var s' := Step(c, s, e).value;
      && s'.outputs == s.outputs +
           (if e.Body? && e.r == Success then {Output(|s.sessions[e.w].pc.got|, e.data)} else {})
      && s'.undoAcked == s.undoAcked +
           (if e.Answer? && e.r == Success then {s.sessions[e.w].pc.i} else {})
  {
    match e
    case Read(w) => ReadFrame(s, w);
    case Branch(w, name, undo) => BranchCounts(c, s, w, name, undo);
    case Write(w) => WriteFrame(c, s, w);
    case _ =>
  }

  lemma BranchCounts(c: Config, s: State, w: nat, name: string, undo: Option<string>)
    requires w in s.sessions && s.sessions[w].pc.Running?
    ensures
      var s' := StepBranch(c, s, w, name, undo);
      s'.outputs == s.outputs && s'.undoAcked == s.undoAcked
  {
    var me := s.sessions[w];
    if Consult(me.pc.recorded, |me.pc.got|, name) == RunBody {
      RegisterFrame(c.be, s, w, me.pc.got, me.pc.recorded, name, undo);
    } else {
      HandedFrame(c, s, w, name, undo);
    }
  }

  /** Registering a branch moves its session to the body, or to the moment before it. */
  lemma RegisterFrame(be: Backend, s: State, w: nat, got: seq<RunResult>, recorded: Acts, name: string,
                      undo: Option<string>)
    requires w in s.sessions
    ensures
      var s' := StepRegister(be, s, w, got, recorded, name, undo);
      && s' == s.(acts := s'.acts, undos := s'.undos, started := s'.started, reran := s'.reran, sessions := s'.sessions)
      && w in s'.sessions && s'.sessions == s.sessions[w := Session(s.sessions[w].status, s'.sessions[w].pc)]
      && (s'.sessions[w].pc == InBody(got, recorded) || s'.sessions[w].pc == Enlisting(got, recorded, name, undo))
  {
  }

  // ---------- a function that asks for rollback ----------

  /** The run of a program that ends in asking for rollback: for every path of results on which it does,
      errors included, the uninterrupted run exists; it goes along that path, writes the row aborting,
      and ends Failed with the compensation of every branch of the path, up to the last legible number,
      acknowledged and no other, and the action rows as the path left them. */
  lemma WholeRunFails(c: Config, p: Program, a: seq<RunResult>) returns (rollback: seq<Event>, t: State)
    requires OpensAll(p, a, |a|) && p(a) == GiveUp && |a| <= c.width && c.may == Runs(p)
    ensures Exec(c, INIT, CrashFree(c.be, p, a, |a|) + rollback) == Some(t)
    ensures forall e :: e in rollback ==> Runs.Own(0, e)
    ensures t.row == Failed && t.sessions == map[] && !t.diverged && t.finished == []
    ensures forall k :: k in t.acts <==> 0 <= k < |a|
    ensures forall k :: 0 <= k < |a| ==> t.acts[k] == RowOf(p(a[..k]).name, a[k])
    ensures forall k: nat :: k in t.undoAcked <==> k < |a| && k <= 9999 && p(a[..k]).undo.Some?
    ensures t.undoCalled == t.undoAcked
  {
    var forth := CrashFree(c.be, p, a, |a|);
    var s := CrashFreeRuns(c, p, a, |a|);
    assert a[..|a|] == a;
    t := Runs.GivesUpRollsBack(c, s, 0);
    rollback := OwnEvents(c, s, 0, t);
    ExecAppend(c, INIT, forth, rollback);
    FailedRows(p, a, s, t);
  }

  lemma OwnEvents(c: Config, s: State, w: nat, t: State) returns (events: seq<Event>)
    requires Runs.Alone(c, s, w, t)
    ensures (forall e :: e in events ==> Runs.Own(w, e)) && Exec(c, s, events) == Some(t)
  {
    events :| (forall e :: e in events ==> Runs.Own(w, e)) && Exec(c, s, events) == Some(t);
  }

  lemma FailedRows(p: Program, a: seq<RunResult>, s: State, t: State)
    requires HalfWay(p, a, |a|, s) && Runs.RolledBack(s, t, 0)
    ensures t.row == Failed && t.sessions == map[] && !t.diverged && t.finished == []
    ensures forall k :: k in t.acts <==> 0 <= k < |a|
    ensures forall k :: 0 <= k < |a| ==> t.acts[k] == RowOf(p(a[..k]).name, a[k])
    ensures forall k: nat :: k in t.undoAcked <==> k < |a| && k <= 9999 && p(a[..k]).undo.Some?
    ensures t.undoCalled == t.undoAcked
  {
    assert forall k: nat :: k in Runs.StillToUndo(s) <==> k in s.undos && k <= 9999;
  }

  lemma {:induction false} ExecAppend(c: Config, s: State, events: seq<Event>, tail: seq<Event>)
    requires Exec(c, s, events).Some?
    ensures Exec(c, s, events + tail) == Exec(c, Exec(c, s, events).value, tail)
    decreases |events|
  {
    if events == [] {
      assert [] + tail == tail;
    } else {
      assert (events + tail)[1..] == events[1..] + tail;
      ExecAppend(c, Step(c, s, events[0]).value, events[1..], tail);
    }
  }

  // ---------- an unknown reply never rolls back ----------

  predicate Refused(e: Event) {
    e.Body? && e.r == Failure
  }

  /** The caller aborted, or a branch body answered with a definite refusal. */
  predicate Asked(events: seq<Event>) {
    Abort in events || exists e :: e in events && Refused(e)
  }

  /** Every rollback was asked for by the caller or by a refused branch, as long as no run diverges. */
  ghost predicate TurnsOnlyWhenAsked(c: Config) {
    forall events, s ::
      Exec(c, INIT, events) == Some(s) && !s.diverged && (s.row == Aborting || s.row == Failed) ==> Asked(events)
  }

  /** The function gives up only after one of its branches was refused. */
  ghost predicate GivesUpOnRefusal(c: Config, p: Program) {
    forall a :: Path(p, a) && |a| <= c.width && p(a) == GiveUp ==> RollbackError in a
  }

  ghost predicate OnPath(c: Config, p: Program, events: seq<Event>, got: seq<RunResult>) {
    |got| <= c.width && Path(p, got) && (RollbackError in got ==> Asked(events))
  }

  ghost predicate TurnOk(c: Config, p: Program, events: seq<Event>, me: Session) {
    && (me.status == Submitted || (me.status == Aborting && Asked(events)))
    && match me.pc
       case Running(got, _) => OnPath(c, p, events, got)
       case Enlisting(got, _, _, _) => OnPath(c, p, events, got) && |got| < c.width && p(got).OpenBranch?
       case InBody(got, _) => OnPath(c, p, events, got) && |got| < c.width && p(got).OpenBranch?
       case Deciding(to, _) => to == Succeed || ((to == Aborting || to == Failed) && Asked(events))
       case _ => true
  }

  ghost predicate TurnInv(c: Config, p: Program, events: seq<Event>, s: State) {
    !s.diverged ==>
      && s.row != Prepared
      && (s.row == Aborting || s.row == Failed ==> Asked(events))
      && forall w :: w in s.sessions ==> TurnOk(c, p, events, s.sessions[w])
  }

  predicate Longer(events: seq<Event>, all: seq<Event>) {
    forall e :: e in events ==> e in all
  }

  lemma TurnStays(c: Config, p: Program, events: seq<Event>, all: seq<Event>, me: Session)
    requires TurnOk(c, p, events, me) && Longer(events, all)
    ensures TurnOk(c, p, all, me)
  {
    AskedStays(events, all);
  }

  lemma AskedStays(events: seq<Event>, all: seq<Event>)
    requires Longer(events, all)
    ensures Asked(events) ==> Asked(all)
  {
  }

  /** One session moves, and the row stays or becomes what was asked for. */
  lemma TurnOne(c: Config, p: Program, events: seq<Event>, s: State, all: seq<Event>, s': State, w: nat)
    requires TurnInv(c, p, events, s) && !s.diverged && Longer(events, all)
    requires s'.row == s.row || s'.row == Succeed || ((s'.row == Aborting || s'.row == Failed) && Asked(all))
    requires forall v :: v in s'.sessions && v != w ==> v in s.sessions && s'.sessions[v] == s.sessions[v]
    requires w in s'.sessions ==> TurnOk(c, p, all, s'.sessions[w])
    ensures TurnInv(c, p, all, s')
  {
    AskedStays(events, all);
    forall v | v in s'.sessions
      ensures TurnOk(c, p, all, s'.sessions[v])
    {
      if v != w {
        TurnStays(c, p, events, all, s.sessions[v]);
      }
    }
  }

  lemma PathOn(p: Program, got: seq<RunResult>, r: RunResult)
    requires Path(p, got) && p(got).OpenBranch? && !r.DivergedError?
    ensures Path(p, got + [r])
  {
    var a := got + [r];
    assert a[..|got|] == got;
    forall i | 0 <= i < |a|
      ensures p(a[..i]).OpenBranch? && !a[i].DivergedError?
    {
      if i < |got| {
        assert a[..i] == got[..i];
      }
    }
  }

  lemma TurnRead(c: Config, p: Program, events: seq<Event>, s: State, w: nat, all: seq<Event>)
    requires TurnInv(c, p, events, s) && !s.diverged && Longer(events, all)
    requires w in s.sessions && s.sessions[w].pc == Reading
    ensures TurnInv(c, p, all, StepRead(s, w))
  {
    var me, s' := s.sessions[w], StepRead(s, w);
    assert TurnOk(c, p, events, me);
    TurnStays(c, p, events, all, me);
    ReadFrame(s, w);
    DecidedUndo(s.undos);
    if me.status == Submitted {
      assert s' == Put(s, w, Submitted, Running([], s.acts));
    }
    TurnOne(c, p, events, s, all, s', w);
  }

  lemma TurnBranch(c: Config, p: Program, events: seq<Event>, s: State, w: nat, name: string, undo: Option<string>,
                   all: seq<Event>)
    requires TurnInv(c, p, events, s) && !s.diverged && Longer(events, all) && c.may == Runs(p)
    requires w in s.sessions && s.sessions[w].pc.Running? && |s.sessions[w].pc.got| < c.width
    requires Allows(c.may, s.sessions[w].pc.got, OpenBranch(name, undo))
    ensures TurnInv(c, p, all, StepBranch(c, s, w, name, undo))
  {
    var me, s' := s.sessions[w], StepBranch(c, s, w, name, undo);
    assert TurnOk(c, p, events, me);
    TurnStays(c, p, events, all, me);
    match Consult(me.pc.recorded, |me.pc.got|, name) {
      case Diverges(_) =>
      case Memo(d) =>
        PathOn(p, me.pc.got, Value(d));
        TurnOne(c, p, events, s, all, s', w);
      case RunBody =>
        RegisterFrame(c.be, s, w, me.pc.got, me.pc.recorded, name, undo);
        TurnOne(c, p, events, s, all, s', w);
    }
  }

  lemma TurnBody(c: Config, p: Program, events: seq<Event>, s: State, w: nat, r: Reply, data: string, all: seq<Event>)
    requires TurnInv(c, p, events, s) && !s.diverged && Longer(events, all) && Body(w, r, data) in all
    requires w in s.sessions && s.sessions[w].pc.InBody?
    ensures TurnInv(c, p, all, StepBody(s, w, r, data))
  {
    var me, s' := s.sessions[w], StepBody(s, w, r, data);
    assert TurnOk(c, p, events, me);
    TurnStays(c, p, events, all, me);
    PathOn(p, me.pc.got, ResultOf(r, data));
    if r == Failure {
      assert Refused(Body(w, r, data));
    }
    TurnOne(c, p, events, s, all, s', w);
  }

  lemma TurnEnds(c: Config, p: Program, events: seq<Event>, s: State, w: nat, to: GlobalStatus, all: seq<Event>)
    requires TurnInv(c, p, events, s) && !s.diverged && Longer(events, all) && c.may == Runs(p) &&
      GivesUpOnRefusal(c, p)
    requires w in s.sessions && s.sessions[w].pc.Running?
    requires to == Succeed || (to == Aborting && p(s.sessions[w].pc.got) == GiveUp)
    ensures TurnInv(c, p, all, Put(s, w, s.sessions[w].status, Deciding(to, s.sessions[w].pc.got)))
  {
    var me := s.sessions[w];
    assert TurnOk(c, p, events, me);
    TurnStays(c, p, events, all, me);
    TurnOne(c, p, events, s, all, Put(s, w, me.status, Deciding(to, me.pc.got)), w);
  }

  lemma TurnWrite(c: Config, p: Program, events: seq<Event>, s: State, w: nat, all: seq<Event>)
    requires TurnInv(c, p, events, s) && !s.diverged && Longer(events, all)
    requires w in s.sessions && s.sessions[w].pc.Deciding?
    ensures TurnInv(c, p, all, StepWrite(c, s, w))
  {
    var me, s' := s.sessions[w], StepWrite(c, s, w);
    assert TurnOk(c, p, events, me);
    TurnStays(c, p, events, all, me);
    WriteFrame(c, s, w);
    TurnOne(c, p, events, s, all, s', w);
  }

  lemma TurnStep(c: Config, p: Program, events: seq<Event>, s: State, e: Event, all: seq<Event>)
    requires c.may == Runs(p) && GivesUpOnRefusal(c, p) && TurnInv(c, p, events, s)
    requires Longer(events, all) && e in all && Step(c, s, e).Some?
    ensures TurnInv(c, p, all, Step(c, s, e).value)
  {
    if s.diverged {
      DivergedStays(c, s, e);
    } else {
      match e
      case Lock(w) =>
        AskedStays(events, all);
        TurnOne(c, p, events, s, all, Put(s, w, s.row, Reading), w);
      case Read(w) => TurnRead(c, p, events, s, w, all);
      case Branch(w, name, undo) => TurnBranch(c, p, events, s, w, name, undo, all);
      case Enlist(w) =>
        TurnStays(c, p, events, all, s.sessions[w]);
        TurnOne(c, p, events, s, all, StepEnlist(s, w), w);
      case Body(w, r, data) => TurnBody(c, p, events, s, w, r, data, all);
      case Ends(w) => TurnEnds(c, p, events, s, w, Succeed, all);
      case GivesUp(w) => TurnEnds(c, p, events, s, w, Aborting, all);
      case Answer(w, r) =>
        TurnStays(c, p, events, all, s.sessions[w]);
        TurnOne(c, p, events, s, all, StepAnswer(s, w, r), w);
      case Write(w) => TurnWrite(c, p, events, s, w, all);
      case Abort => TurnAbort(c, p, events, s, all);
      case Leave(w) => TurnOne(c, p, events, s, all, Drop(s, w), w);
    }
  }

  lemma TurnAbort(c: Config, p: Program, events: seq<Event>, s: State, all: seq<Event>)
    requires TurnInv(c, p, events, s) && !s.diverged && Longer(events, all) && Abort in all
    ensures TurnInv(c, p, all, s.(row := Aborting))
  {
    forall w | w in s.sessions
      ensures TurnOk(c, p, all, s.sessions[w])
    {
      TurnStays(c, p, events, all, s.sessions[w]);
    }
  }

  lemma DivergedStays(c: Config, s: State, e: Event)
    requires s.diverged && Step(c, s, e).Some?
    ensures Step(c, s, e).value.diverged
  {
    match e
    case Read(w) => ReadFrame(s, w);
    case Write(w) => WriteFrame(c, s, w);
    case _ =>
  }

  lemma {:induction false} TurnExec(c: Config, p: Program, done: seq<Event>, s: State, events: seq<Event>)
    requires c.may == Runs(p) && GivesUpOnRefusal(c, p) && TurnInv(c, p, done, s)
    requires Exec(c, s, events).Some?
    ensures TurnInv(c, p, done + events, Exec(c, s, events).value)
    decreases |events|
  {
    if events == [] {
      assert done + events == done;
    } else {
      var now := done + [events[0]];
      TurnStep(c, p, done, s, events[0], now);
      assert now + events[1..] == done + events;
      TurnExec(c, p, now, Step(c, s, events[0]).value, events[1..]);
    }
  }

  /** A path on which no branch is refused is run without a refusal. */
  lemma {:induction false} QuietRun(be: Backend, p: Program, a: seq<RunResult>, n: nat)
    requires n <= |a| && RollbackError !in a
    ensures !Asked(CrashFree(be, p, a, n))
    decreases n
  {
    if n > 0 {
      QuietRun(be, p, a, n - 1);
      assert a[n - 1] in a;
    }
  }

  lemma AsksAndTurns(c: Config, events: seq<Event>, s: State, a: seq<RunResult>)
    requires Exec(c, INIT, events) == Some(s) && Allows(c.may, a, GiveUp)
    requires s.row == Submitted && s.sessions == map[0 := Session(Submitted, Running(a, map[]))]
    ensures Exec(c, INIT, events + [GivesUp(0)] + [Write(0)])
         == Some(s.(row := Aborting, sessions := map[0 := Session(Aborting, Reading)]))
  {
    Runs.ExecSnoc(c, INIT, events, GivesUp(0));
    var asked := Step(c, s, GivesUp(0)).value;
    assert asked.sessions == map[0 := Session(Submitted, Deciding(Aborting, a))];
    Runs.ExecSnoc(c, INIT, events + [GivesUp(0)], Write(0));
    assert Step(c, asked, Write(0)).value.sessions == map[0 := Session(Aborting, Reading)];
  }

  /** The function gives up although nothing was refused, and the row aborts. */
  lemma UnaskedRun(c: Config, p: Program, a: seq<RunResult>)
    requires c.may == Runs(p) && Path(p, a) && |a| <= c.width && p(a) == GiveUp && RollbackError !in a
    ensures !TurnsOnlyWhenAsked(c)
  {
    var forth := CrashFree(c.be, p, a, |a|);
    var s := CrashFreeRuns(c, p, a, |a|);
    assert a[..|a|] == a;
    AsksAndTurns(c, forth, s, a);
    var events := forth + [GivesUp(0)] + [Write(0)];
    QuietRun(c.be, p, a, |a|);
    assert !Asked(events);
    assert Exec(c, INIT, events) == Some(s.(row := Aborting, sessions := map[0 := Session(Aborting, Reading)]));
  }

  /** A reply that is ongoing or unknown, a lost result, or a crash never rolls a workflow back: over all
      runs that do not diverge, a rollback was asked for by the caller or by a refused branch, exactly
      when the function itself gives up only after a refused branch. A function that passes the errors
      of its branches on is such a function. */
  lemma TurnsOnlyWhenAskedExactly(c: Config, p: Program)
    requires c.may == Runs(p)
    ensures TurnsOnlyWhenAsked(c) <==> GivesUpOnRefusal(c, p)
  {
    if a :| Path(p, a) && |a| <= c.width && p(a) == GiveUp && RollbackError !in a {
      UnaskedRun(c, p, a);
    } else {
      forall events, s |
        Exec(c, INIT, events) == Some(s) && !s.diverged && (s.row == Aborting || s.row == Failed)
        ensures Asked(events)
      {
        TurnExec(c, p, [], INIT, events);
        assert [] + events == events;
      }
    }
  }
}
