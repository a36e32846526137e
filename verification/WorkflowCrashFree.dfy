/** The run of a workflow program that nothing disturbs: which events it takes and what it leaves. */
module WorkflowCrashFree {
  import opened Types
  import opened Workflow
  import Runs = WorkflowRuns

  // ---------- paths of a program ----------

  /** The program opens a branch after each proper prefix of these results, and was never told that
      it had diverged. */
  ghost predicate OpensAll(p: Program, a: seq<RunResult>, n: nat) {
    n <= |a| && forall i :: 0 <= i < n ==> p(a[..i]).OpenBranch? && !a[i].DivergedError?
  }

  // ---------- the run without crashes ----------

  function ReplyOf(r: RunResult): Reply {
    match r
    case Value(_) => Success
    case RollbackError => Failure
    case _ => Unknown
  }

  function DataOf(r: RunResult): string {
    match r
    case Value(d) => d
    case _ => ""
  }

  /** The action row a branch leaves that was run once. */
  function RowOf(name: string, r: RunResult): ActRow {
    match r
    case Value(d) => ActRow(name, Done, d)
    case RollbackError => ActRow(name, Refused, "")
    case _ => ActRow(name, Pending, "")
  }

  /** The events up to the body of one more branch, and with it. */
  function UpToBody(be: Backend, events: seq<Event>, next: Next): seq<Event>
    requires next.OpenBranch?
  {
    var begun := events + [Branch(0, next.name, next.undo)];
    if be == RedisBackend then begun + [Enlist(0)] else begun
  }

  function OneMoreBranch(be: Backend, events: seq<Event>, next: Next, r: RunResult): seq<Event>
    requires next.OpenBranch?
  {
    UpToBody(be, events, next) + [Body(0, ReplyOf(r), DataOf(r))]
  }

  /** One worker runs n branches, each once, with these results. */
  function CrashFree(be: Backend, p: Program, a: seq<RunResult>, n: nat): seq<Event>
    requires n <= |a|
  {
    if n == 0 then [Lock(0), Read(0)]
    else if p(a[..n - 1]).OpenBranch? then OneMoreBranch(be, CrashFree(be, p, a, n - 1), p(a[..n - 1]), a[n - 1])
    else []
  }

  function WholeRun(be: Backend, p: Program, a: seq<RunResult>): seq<Event> {
    CrashFree(be, p, a, |a|) + [Ends(0)] + [Write(0)]
  }

  /** The rows and the history of an uninterrupted run, up to n branches. */
  ghost predicate After(p: Program, a: seq<RunResult>, n: nat, s: State) {
    && OpensAll(p, a, n)
    && (forall k :: k in s.acts <==> 0 <= k < n)
    && (forall k :: 0 <= k < n ==> s.acts[k] == RowOf(p(a[..k]).name, a[k]))
    && (forall k :: k in s.undos <==> 0 <= k < n && p(a[..k]).undo.Some?)
    && (forall k :: k in s.undos ==> s.undos[k] == UndoRow(p(a[..k]).undo.value, Pending))
    && (forall x :: x in s.started <==> x.k in s.undos && x.addr == s.undos[x.k].addr)
    && (forall o :: o in s.outputs ==> 0 <= o.k < n && a[o.k] == Value(o.data))
    && s.undoCalled == {} && s.undoAcked == {} && !s.reran && !s.diverged && !s.lost
  }

  lemma BodyEffect(s: State, w: nat, got: seq<RunResult>, recorded: Acts, r: Reply, data: string)
    requires s.sessions == map[w := Session(Submitted, InBody(got, recorded))]
    ensures
      StepBody(s, w, r, data) == s.(
        acts := Settle(s.acts, |got|, r, data),
        sessions := map[w := Session(Submitted, Running(got + [ResultOf(r, data)], recorded))],
        outputs := if r == Success then s.outputs + {Output(|got|, data)} else s.outputs,
        lost := s.lost || (r == Success && |got| !in s.acts))
  {
    assert StepBody(s, w, r, data).sessions == map[w := Session(Submitted,
      Running(got + [ResultOf(r, data)], recorded))];
  }

  /** The rows after one more branch. */
  lemma AfterRows(p: Program, a: seq<RunResult>, n: nat, s: State, s': State)
    requires n < |a| && p(a[..n]).OpenBranch? && !a[n].DivergedError? && After(p, a, n, s)
    requires s'.acts == s.acts[n := RowOf(p(a[..n]).name, a[n])]
    requires s'.undos == InsertUndo(s.undos, n, p(a[..n]).undo)
    requires s'.started == s.started + Runs.Kept(Decl(n, p(a[..n]).name, p(a[..n]).undo))
    requires s'.outputs == (if a[n].Value? then s.outputs + {Output(n, a[n].data)} else s.outputs)
    requires (s'.undoCalled, s'.undoAcked) == (s.undoCalled, s.undoAcked)
    requires (s'.reran, s'.diverged, s'.lost) == (s.reran, s.diverged, s.lost)
    ensures After(p, a, n + 1, s')
  {
  }

  lemma OpensOne(c: Config, s: State, events: seq<Event>, mid: State, got: seq<RunResult>, name: string,
                 undo: Option<string>)
    returns (s': State)
    requires Exec(c, s, events) == Some(mid) && |got| < c.width && Allows(c.may, got, OpenBranch(name, undo))
    requires mid.sessions == map[0 := Session(Submitted, Running(got, map[]))]
    requires |got| !in mid.acts && |got| !in mid.undos
    ensures Exec(c, s, UpToBody(c.be, events, OpenBranch(name, undo))) == Some(s')
    ensures
      var k := |got|;
      s' == mid.(acts := mid.acts[k := ActRow(name, Pending, "")], undos := InsertUndo(mid.undos, k, undo),
                 started := mid.started + Runs.Kept(Decl(k, name, undo)),
                 sessions := map[0 := Session(Submitted, InBody(got, map[]))])
  {
    Runs.ExecSnoc(c, s, events, Branch(0, name, undo));
    s' := StepBranch(c, mid, 0, name, undo);
    var d := Decl(|got|, name, undo);
    if c.be == RedisBackend {
      Runs.ExecSnoc(c, s, events + [Branch(0, name, undo)], Enlist(0));
      Runs.EnlistCompletes(mid, 0, s', got, map[], d);
      s' := StepEnlist(s', 0);
    } else {
      Runs.RegisterAtOnce(c.be, mid, 0, got, map[], d);
    }
    OpenedFresh(c.be, mid, got, d);
  }

  lemma OpenedFresh(be: Backend, mid: State, got: seq<RunResult>, d: Decl)
    requires mid.sessions == map[0 := Session(Submitted, Running(got, map[]))]
    requires d.k == |got| && d.k !in mid.acts && d.k !in mid.undos
    ensures
      Runs.Opened(be, mid, 0, got, map[], d)
      == mid.(acts := mid.acts[d.k := ActRow(d.name, Pending, "")], undos := InsertUndo(mid.undos, d.k, d.undo),
              started := mid.started + Runs.Kept(d), sessions := map[0 := Session(Submitted, InBody(got, map[]))])
  {
    var body := Session(Submitted, InBody(got, map[]));
    assert mid.sessions[0 := body] == map[0 := body];
  }

  ghost predicate HalfWay(p: Program, a: seq<RunResult>, n: nat, s: State) {
    && n <= |a| && s.row == Submitted && s.finished == [] && After(p, a, n, s)
    && s.sessions == map[0 := Session(Submitted, Running(a[..n], map[]))]
  }

  lemma Starts(c: Config, p: Program, a: seq<RunResult>, n: nat) returns (s: State)
    requires n == 0
    ensures Exec(c, INIT, [Lock(0), Read(0)]) == Some(s) && HalfWay(p, a, n, s)
  {
    var mid := Step(c, INIT, Lock(0)).value;
    assert mid.sessions == map[0 := Session(Submitted, Reading)];
    assert [Lock(0), Read(0)][1..] == [Read(0)];
    assert Exec(c, mid, [Read(0)]) == Step(c, mid, Read(0));
    s := Step(c, mid, Read(0)).value;
    assert s.sessions == map[0 := Session(Submitted, Running(a[..0], map[]))];
  }

  lemma NextBranch(c: Config, s0: State, events: seq<Event>, mid: State, p: Program, a: seq<RunResult>, n: nat, m: nat)
    returns (s: State)
    requires m == n + 1 && n < |a| && n < c.width && c.may == Runs(p) && p(a[..n]).OpenBranch? && !a[n].DivergedError?
    requires Exec(c, s0, events) == Some(mid) && HalfWay(p, a, n, mid)
    ensures Exec(c, s0, OneMoreBranch(c.be, events, p(a[..n]), a[n])) == Some(s) && HalfWay(p, a, m, s)
  {
    var name, undo := p(a[..n]).name, p(a[..n]).undo;
    var s1 := OpensOne(c, s0, events, mid, a[..n], name, undo);
    Runs.ExecSnoc(c, s0, UpToBody(c.be, events, p(a[..n])), Body(0, ReplyOf(a[n]), DataOf(a[n])));
    BodyEffect(s1, 0, a[..n], map[], ReplyOf(a[n]), DataOf(a[n]));
    s := StepBody(s1, 0, ReplyOf(a[n]), DataOf(a[n]));
    BodyOver(c, p, a, n, mid, s1, s);
  }

  lemma BodyOver(c: Config, p: Program, a: seq<RunResult>, n: nat, mid: State, s1: State, s2: State)
    requires n < |a| && p(a[..n]).OpenBranch? && !a[n].DivergedError? && HalfWay(p, a, n, mid)
    requires
      s1 == mid.(acts := mid.acts[n := ActRow(p(a[..n]).name, Pending, "")],
                 undos := InsertUndo(mid.undos, n, p(a[..n]).undo),
                 started := mid.started + Runs.Kept(Decl(n, p(a[..n]).name, p(a[..n]).undo)),
                 sessions := map[0 := Session(Submitted, InBody(a[..n], map[]))])
    requires
      var got := a[..n] + [ResultOf(ReplyOf(a[n]), DataOf(a[n]))];
      s2 == s1.(acts := Settle(s1.acts, n, ReplyOf(a[n]), DataOf(a[n])),
                sessions := map[0 := Session(Submitted, Running(got, map[]))],
                outputs := if ReplyOf(a[n]) == Success then s1.outputs + {Output(n, DataOf(a[n]))} else s1.outputs,
                lost := s1.lost || (ReplyOf(a[n]) == Success && n !in s1.acts))
    ensures HalfWay(p, a, n + 1, s2)
  {
    assert ResultOf(ReplyOf(a[n]), DataOf(a[n])) == a[n];
    assert a[..n] + [a[n]] == a[..n + 1];
    assert s2.acts == mid.acts[n := RowOf(p(a[..n]).name, a[n])];
    AfterRows(p, a, n, mid, s2);
  }

  lemma {:induction false} CrashFreeRuns(c: Config, p: Program, a: seq<RunResult>, n: nat) returns (s: State)
    requires OpensAll(p, a, n) && n <= c.width && c.may == Runs(p)
    ensures Exec(c, INIT, CrashFree(c.be, p, a, n)) == Some(s) && HalfWay(p, a, n, s)
    decreases n
  {
    if n == 0 {
      s := Starts(c, p, a, n);
    } else {
      var m := n - 1;
      var mid := CrashFreeRuns(c, p, a, m);
      assert p(a[..m]).OpenBranch? && !a[m].DivergedError?;
      assert CrashFree(c.be, p, a, n) == OneMoreBranch(c.be, CrashFree(c.be, p, a, m), p(a[..m]), a[m]);
      s := NextBranch(c, INIT, CrashFree(c.be, p, a, m), mid, p, a, m, n);
    }
  }

  lemma AfterAll(p: Program, a: seq<RunResult>, s: State, t: State)
    requires After(p, a, |a|, s) && t == s.(row := t.row, sessions := t.sessions, finished := t.finished)
    ensures After(p, a, |a|, t)
  {
  }

  /** The function returns, and the transaction succeeds. */
  lemma RunEnds(c: Config, s0: State, events: seq<Event>, s: State, a: seq<RunResult>, recorded: Acts)
    requires Exec(c, s0, events) == Some(s) && Allows(c.may, a, Return)
    requires s.row == Submitted && s.sessions == map[0 := Session(Submitted, Running(a, recorded))]
    ensures
      Exec(c, s0, events + [Ends(0)] + [Write(0)]) == Some(s.(row := Succeed, sessions := map[], finished := a))
  {
    Runs.ExecSnoc(c, s0, events, Ends(0));
    var s1 := Step(c, s, Ends(0)).value;
    assert s1.sessions == map[0 := Session(Submitted, Deciding(Succeed, a))];
    Runs.ExecSnoc(c, s0, events + [Ends(0)], Write(0));
    assert Step(c, s1, Write(0)).value.sessions == map[];
  }

  /** A program that returns after these results gets an uninterrupted run to the end. */
  lemma WholeRunFinishes(c: Config, p: Program, a: seq<RunResult>)
    requires OpensAll(p, a, |a|) && p(a) == Return && |a| <= c.width && c.may == Runs(p)
    ensures
      && Exec(c, INIT, WholeRun(c.be, p, a)).Some?
      && var t := Exec(c, INIT, WholeRun(c.be, p, a)).value;
      && t.row == Succeed && t.finished == a && t.sessions == map[] && After(p, a, |a|, t)
  {
    var s := CrashFreeRuns(c, p, a, |a|);
    assert a[..|a|] == a;
    RunEnds(c, INIT, CrashFree(c.be, p, a, |a|), s, a, map[]);
    AfterAll(p, a, s, s.(row := Succeed, sessions := map[], finished := a));
  }
}
