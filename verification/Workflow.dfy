/** Workflow transactions: the forward path is a user function that is run again from the top after
    every crash. Results of finished branches are stored and handed back instead of running the
    branch again; compensations are registered before the branch body runs. */
module Workflow {
  import opened Types
  import opened Decisions
  import opened BranchIds

  // ---------- rows ----------

  /** The action row keeps the branch name, for detecting that a replay has taken another path. */
  datatype ActRow = ActRow(name: string, status: BranchStatus, data: string)

  datatype UndoRow = UndoRow(addr: string, status: BranchStatus)

  type Acts = map<nat, ActRow>

  type Undos = map<nat, UndoRow>

  function InsertUndo(undos: Undos, k: nat, undo: Option<string>): Undos {
    match undo
    case None => undos
    case Some(addr) => if k in undos then undos else undos[k := UndoRow(addr, Pending)]
  }

  function InsertAct(acts: Acts, k: nat, name: string): Acts {
    if k in acts then acts else acts[k := ActRow(name, Pending, "")]
  }

  /** Another address is stored for this branch already. */
  predicate UndoClash(undos: Undos, k: nat, undo: Option<string>) {
    undo.Some? && k in undos && undos[k].addr != undo.value
  }

  /** `register_branch`, undisturbed: the compensation first, then the action, each insert-if-absent.
      A row that holds something else is a conflict. SQL rolls the whole registration back; Redis
      stops where it is. The caller does not look at the outcome. */
  function Register(be: Backend, acts: Acts, undos: Undos, k: nat, name: string, undo: Option<string>): (Acts, Undos) {
    if UndoClash(undos, k, undo) then (acts, undos)
    else if be == SqlBackend && k in acts && acts[k].name != name then (acts, undos)
    else (InsertAct(acts, k, name), InsertUndo(undos, k, undo))
  }

  /** What the record of an earlier run says about the k-th branch of this one. */
  datatype Replay = Diverges(recorded: string) | Memo(data: string) | RunBody

  function Consult(recorded: Acts, k: nat, name: string): Replay {
    if k !in recorded then RunBody
    else if recorded[k].name != name then Diverges(recorded[k].name)
    else if recorded[k].status == Done then Memo(recorded[k].data)
    else RunBody
  }

  /** The action row after its body has answered. */
  function Settle(acts: Acts, k: nat, reply: Reply, data: string): Acts {
    if k !in acts then acts
    else
      match reply
      case Success => acts[k := acts[k].(status := Done, data := data)]
      case Failure => acts[k := acts[k].(status := Refused)]
      case _ => acts
  }

  // ---------- one branch of a workflow function ----------

  class Tables {
    var acts: Acts
    var undos: Undos

    constructor ()
      ensures acts == map[] && undos == map[]
    {
      acts, undos := map[], map[];
    }

    /** Undisturbed; what a crash between the two inserts leaves on Redis is a state of its own below. */
    method RegisterBranch(be: Backend, k: nat, name: string, undo: Option<string>)
      modifies this
      ensures (acts, undos) == Register(be, old(acts), old(undos), k, name, undo)
    {
      match undo {
        case None =>
        case Some(addr) =>
          if k in undos && undos[k].addr != addr {
            return;
          }
      }
      var clash := k in acts && acts[k].name != name;
      if !clash || be == RedisBackend {
        match undo {
          case None =>
          case Some(addr) =>
            if k !in undos {
              undos := undos[k := UndoRow(addr, Pending)];
            }
        }
      }
      if k !in acts {
        acts := acts[k := ActRow(name, Pending, "")];
      }
    }
  }

  datatype RunResult = Value(data: string) | RollbackError | RetryError | DivergedError(recorded: string, got: string)

  /** The context a workflow function opens its branches on: a counter, and the action rows that
      were in the table when this run began. */
  class WorkflowCtx {
    const be: Backend
    const recorded: Acts
    var next: nat

    constructor (be: Backend, tables: Tables)
      ensures this.be == be && recorded == tables.acts && next == 0
    {
      this.be, recorded, next := be, tables.acts, 0;
    }

    /** `run_with`. `reply` and `data` are what the body would answer; they count only if it runs. */
    method RunWith(tables: Tables, name: string, undo: Option<string>, reply: Reply, data: string)
      returns (r: RunResult, ghost ranBody: bool)
      modifies this`next, tables
      ensures next == old(next) + 1
      ensures match Consult(recorded, old(next), name)
              case Diverges(was) =>
                r == DivergedError(was, name) && !ranBody && tables.acts == old(tables.acts) &&
                  tables.undos == old(tables.undos)
              case Memo(d) =>
                r == Value(d) && !ranBody && tables.acts == old(tables.acts) && tables.undos == old(tables.undos)
              case RunBody =>
                var (acts, undos) := Register(be, old(tables.acts), old(tables.undos), old(next), name, undo);
                && ranBody
                && tables.acts == Settle(acts, old(next), reply, data) && tables.undos == undos
                && r == ResultOf(reply, data)
    {
      ranBody := false;
      var k := next;
      next := next + 1;
      if k in recorded {
        var row := recorded[k];
        if row.name != name {
          return DivergedError(row.name, name), false;
        }
        if row.status == Done {
          return Value(row.data), false;
        }
      }
      tables.RegisterBranch(be, k, name, undo);
      ranBody := true;
      match reply {
        case Success =>
          if k in tables.acts {
            tables.acts := tables.acts[k := tables.acts[k].(status := Done, data := data)];
          }
          return Value(data), true;
        case Failure =>
          if k in tables.acts {
            tables.acts := tables.acts[k := tables.acts[k].(status := Refused)];
          }
          return RollbackError, true;
        case _ => return RetryError, true;
      }
    }
  }

  // ---------- reading the compensations back ----------

  /** One more than the largest index, or 0. */
  ghost function Width(keys: set<nat>): (n: nat)
    ensures forall i :: i in keys ==> i < n
    ensures n > 0 ==> n - 1 in keys
    decreases keys
  {
    if keys == {} then 0
    else
      var i :| i in keys;
      var n := Width(keys - {i});
      assert forall j :: j in keys ==> j == i || j in keys - {i};
      if i < n then n else i + 1
  }

  /** The compensations whose branch number the driver can read back. */
  ghost function Legible(undos: Undos): set<nat> {
    set k | k in undos && k <= MAX_BRANCH_INDEX
  }

  /** `compensate_states`: a branch without compensation counts as done, and so does one whose
      number is above the limit. */
  ghost function Column(undos: Undos): (s: seq<BranchStatus>)
    ensures |s| == Width(Legible(undos))
    ensures forall i :: 0 <= i < |s| ==> s[i] == if i in Legible(undos) then undos[i].status else Done
  {
    var keys := Legible(undos);
    seq(Width(keys), i requires 0 <= i < Width(keys) => if i in keys then undos[i].status else Done)
  }

  // ---------- the whole transaction ----------

  /** What a workflow function does next: it opens a branch, or it ends well, asking for rollback,
      or with any other error. */
  datatype Next = OpenBranch(name: string, undo: Option<string>) | Return | GiveUp | Quit

  /** A deterministic function: what it does next depends on what its branches have returned so
      far, errors included. */
  type Program = seq<RunResult> -> Next

  /** A branch that a function may open at a position, over all its replays. */
  datatype Decl = Decl(k: nat, name: string, undo: Option<string>)

  /** All that is known of the function: what it may open where, or the function itself. */
  datatype Behaviour = Declares(decls: iset<Decl>) | Runs(p: Program)

  /** `overlap`: a second worker may lock the row while the first is still at it (a lease was
      outrun). No run opens more than `width` branches. */
  datatype Config = Config(be: Backend, overlap: bool, width: nat, may: Behaviour)

  ghost predicate Allows(b: Behaviour, got: seq<RunResult>, next: Next) {
    match b
    case Declares(decls) => next.OpenBranch? ==> Decl(|got|, next.name, next.undo) in decls
    case Runs(p) => p(got) == next
  }

  /** Enlisting is the moment between the two commands of a registration on Redis. */
  datatype Pc =
    | Reading
    | Running(got: seq<RunResult>, recorded: Acts)
    | Enlisting(got: seq<RunResult>, recorded: Acts, name: string, undo: Option<string>)
    | InBody(got: seq<RunResult>, recorded: Acts)
    | Undoing(i: nat)
    | Deciding(to: GlobalStatus, path: seq<RunResult>)

  datatype Session = Session(status: GlobalStatus, pc: Pc)

  datatype Output = Output(k: nat, data: string)

  /** A branch and the address it was declared to be compensated at. */
  datatype Promise = Promise(k: nat, addr: string)

  /** History: the declared compensations of the branches whose body ever started, every result a
      body ever returned, the compensations ever called and acknowledged, whether a body ever ran
      again after its result was stored, whether a run ever diverged, whether a result ever had no
      row to go to, and the results along which the run went that wrote Succeed. */
  datatype State = State(
    row: GlobalStatus, acts: Acts, undos: Undos, sessions: map<nat, Session>,
    started: set<Promise>, outputs: set<Output>, undoCalled: set<nat>, undoAcked: set<nat>,
    reran: bool, diverged: bool, lost: bool, finished: seq<RunResult>)

  const INIT: State := State(Submitted, map[], map[], map[], {}, {}, {}, {}, false, false, false, [])

  datatype Event =
    | Lock(w: nat)
    | Read(w: nat)
    | Branch(w: nat, name: string, undo: Option<string>)
    | Enlist(w: nat)
    | Body(w: nat, r: Reply, data: string)
    | Ends(w: nat)
    | GivesUp(w: nat)
    | Answer(w: nat, r: Reply)
    | Write(w: nat)
    | Abort
    | Leave(w: nat)

  function Put(s: State, w: nat, status: GlobalStatus, pc: Pc): State {
    s.(sessions := s.sessions[w := Session(status, pc)])
  }

  function Drop(s: State, w: nat): State {
    s.(sessions := s.sessions - {w})
  }

  ghost function StepRead(s: State, w: nat): State
    requires w in s.sessions
  {
    var st := s.sessions[w].status;
    match WorkflowNext(st, Column(s.undos))
    case RunWorkflow => Put(s, w, st, Running([], s.acts))
    case CallOne(i, _) => Put(s, w, st, Undoing(i)).(undoCalled := s.undoCalled + {i})
    case Finish(t) => Put(s, w, st, Deciding(t, []))
    case _ => Drop(s, w)
  }

  /** The registration is over, whatever its outcome, and the body begins. */
  function StartBody(s: State, w: nat, acts: Acts, undos: Undos, got: seq<RunResult>, recorded: Acts,
                     undo: Option<string>): State
    requires w in s.sessions
  {
    var k := |got|;
    s.(acts := acts, undos := undos,
       sessions := s.sessions[w := Session(s.sessions[w].status, InBody(got, recorded))],
       started := if undo.Some? then s.started + {Promise(k, undo.value)} else s.started,
       reran := s.reran || (k in s.acts && s.acts[k].status == Done))
  }

  function StepRegister(be: Backend, s: State, w: nat, got: seq<RunResult>, recorded: Acts, name: string,
                        undo: Option<string>): State
    requires w in s.sessions
  {
    var k := |got|;
    if UndoClash(s.undos, k, undo) then StartBody(s, w, s.acts, s.undos, got, recorded, undo)
    else if be == SqlBackend then
      var (acts, undos) := Register(be, s.acts, s.undos, k, name, undo);
      StartBody(s, w, acts, undos, got, recorded, undo)
    else Put(s, w, s.sessions[w].status, Enlisting(got, recorded, name, undo)).(undos := InsertUndo(s.undos, k, undo))
  }

  function StepBranch(c: Config, s: State, w: nat, name: string, undo: Option<string>): State
    requires w in s.sessions && s.sessions[w].pc.Running?
  {
    var me := s.sessions[w];
    var got, recorded := me.pc.got, me.pc.recorded;
    match Consult(recorded, |got|, name)
    case Diverges(was) => Put(s, w, me.status, Running(got + [DivergedError(was, name)], recorded)).(diverged := true)
    case Memo(d) => Put(s, w, me.status, Running(got + [Value(d)], recorded))
    case RunBody => StepRegister(c.be, s, w, got, recorded, name, undo)
  }

  function StepEnlist(s: State, w: nat): State
    requires w in s.sessions && s.sessions[w].pc.Enlisting?
  {
    var pc := s.sessions[w].pc;
    StartBody(s, w, InsertAct(s.acts, |pc.got|, pc.name), s.undos, pc.got, pc.recorded, pc.undo)
  }

  /** What `run_with` hands to the function when the body has answered. */
  function ResultOf(r: Reply, data: string): RunResult {
    match r
    case Success => Value(data)
    case Failure => RollbackError
    case _ => RetryError
  }

  function StepBody(s: State, w: nat, r: Reply, data: string): State
    requires w in s.sessions && s.sessions[w].pc.InBody?
  {
    var me := s.sessions[w];
    var k := |me.pc.got|;
    Put(s, w, me.status, Running(me.pc.got + [ResultOf(r, data)], me.pc.recorded)).(
      acts := Settle(s.acts, k, r, data),
      outputs := if r == Success then s.outputs + {Output(k, data)} else s.outputs,
      lost := s.lost || (r == Success && k !in s.acts))
  }

  function StepAnswer(s: State, w: nat, r: Reply): State
    requires w in s.sessions && s.sessions[w].pc.Undoing?
  {
    var me := s.sessions[w];
    var i := me.pc.i;
    if r != Success then Drop(s, w)
    else Put(s, w, me.status, Reading).(
      undos := if i in s.undos then s.undos[i := s.undos[i].(status := Done)] else s.undos,
      undoAcked := s.undoAcked + {i})
  }

  /** Redis writes without comparing where nobody else can have written, which for a workflow is
      only the end of a rollback. */
  function StepWrite(c: Config, s: State, w: nat): State
    requires w in s.sessions && s.sessions[w].pc.Deciding?
  {
    var me := s.sessions[w];
    var to := me.pc.to;
    var blind := c.be == RedisBackend && !StatusContested(me.status, TransType.Workflow);
    if !blind && s.row != me.status then Drop(s, w)
    else
      var s1 := s.(row := to, finished := if to == Succeed then me.pc.path else s.finished);
      if to.IsFinal() then Drop(s1, w) else Put(s1, w, to, Reading)
  }

  ghost function Step(c: Config, s: State, e: Event): Option<State> {
    match e
    case Lock(w) =>
      if w in s.sessions || !Schedulable(s.row, TransType.Workflow) || (!c.overlap && s.sessions != map[]) then None
      else Some(Put(s, w, s.row, Reading))
    case Read(w) =>
      if w !in s.sessions || s.sessions[w].pc != Reading then None else Some(StepRead(s, w))
    case Branch(w, name, undo) =>
      if w !in s.sessions || !s.sessions[w].pc.Running? || |s.sessions[w].pc.got| >= c.width
         || !Allows(c.may, s.sessions[w].pc.got, OpenBranch(name, undo)) then None
      else Some(StepBranch(c, s, w, name, undo))
    case Enlist(w) =>
      if w !in s.sessions || !s.sessions[w].pc.Enlisting? then None else Some(StepEnlist(s, w))
    case Body(w, r, data) =>
      if w !in s.sessions || !s.sessions[w].pc.InBody? then None else Some(StepBody(s, w, r, data))
    case Ends(w) =>
      if w !in s.sessions || !s.sessions[w].pc.Running? || !Allows(c.may, s.sessions[w].pc.got, Return) then None
      else Some(Put(s, w, s.sessions[w].status, Deciding(Succeed, s.sessions[w].pc.got)))
    case GivesUp(w) =>
      if w !in s.sessions || !s.sessions[w].pc.Running? || !Allows(c.may, s.sessions[w].pc.got, GiveUp) then None
      else Some(Put(s, w, s.sessions[w].status, Deciding(Aborting, s.sessions[w].pc.got)))
    case Answer(w, r) =>
      if w !in s.sessions || !s.sessions[w].pc.Undoing? then None else Some(StepAnswer(s, w, r))
    case Write(w) =>
      if w !in s.sessions || !s.sessions[w].pc.Deciding? then None else Some(StepWrite(c, s, w))
    case Abort =>
      if AbortGuard(s.row, TransType.Workflow) == TryWrite then Some(s.(row := Aborting)) else None
    case Leave(w) =>
      if w !in s.sessions then None else Some(Drop(s, w))
  }

  ghost function Exec(c: Config, s: State, events: seq<Event>): Option<State>
    decreases |events|
  {
    if events == [] then Some(s)
    else
      match Step(c, s, events[0])
      case None => None
      case Some(s') => Exec(c, s', events[1..])
  }

  ghost predicate Reachable(c: Config, s: State) {
    exists events :: Exec(c, INIT, events) == Some(s)
  }
}
