/** One global transaction (saga, TCC, XA or two-phase message) as a step system.

    The state is the persisted status, the branch rows, every worker session that is still alive,
    and the submit and abort calls that have read the row but not written it yet. Any number of
    sessions may be alive at once: a worker that has outrun its lease is simply one more session,
    so nothing proved here rests on leases or clocks. A session can vanish after any step, which
    covers a crash, a release with a backoff, and the end of a round. Replies are chosen freely.

    One event is one atomic step on the store (or one reply). A branch call is recorded as made
    when the worker decides on it, and a reply is recorded together with the branch row it sets:
    between those points the worker touches nothing that another party can see. */
module Coordinator {
  import opened Types
  import opened Decisions

  /** `steps[k]` is the step that branch k belongs to; only two-phase messages look at it.
      `fullCompare` is not a setting of the system: it switches the Redis shortcut off, which
      gives the reference that the shortcut is measured against. */
  datatype Config = Config(tt: TransType, backend: Backend, inlineDrive: bool, fullCompare: bool, steps: seq<nat>) {
    predicate Valid() {
      && tt != Workflow
      && forall i, j :: 0 <= i < j < |steps| ==> steps[i] <= steps[j]
    }

    function N(): nat {
      |steps|
    }

    predicate Shortcut() {
      backend == RedisBackend && !fullCompare
    }

    function FwdOp(): BranchOp {
      match tt
      case Tcc => Confirm
      case Xa => Commit
      case _ => Action
    }

    function BwdOp(): BranchOp {
      match tt
      case Tcc => Cancel
      case Xa => Rollback
      case _ => Compensate
    }
  }

  // ---------- state ----------

  datatype Pc =
    | Timing                                     // holds a prepared TCC / XA row, waiting for its deadline
    | Asking                                     // has asked the business side about a prepared message
    | Looping                                    // top of the process loop
    | Calling(call: Call)                        // waiting for one branch
    | Fanout(waiting: set<nat>, allOk: bool)     // waiting for the branches of one message step
    | Deciding(to: GlobalStatus)                 // about to write the global status

  /** `status` is the status the worker believes in, not the one in the row. */
  datatype Session = Session(status: GlobalStatus, pc: Pc)

  /** `called`, `acked`, `refused` and `abortOk` are history: every call a worker ever decided to
      make, every call some worker ever got Success or Failure for, and whether an abort was ever
      answered Ok. */
  datatype State = State(
    row: GlobalStatus,
    fwd: seq<BranchStatus>,
    bwd: seq<BranchStatus>,
    sessions: map<nat, Session>,
    submits: set<nat>,
    aborts: map<nat, GlobalStatus>,
    called: set<Call>,
    acked: set<Call>,
    refused: set<Call>,
    abortOk: bool)

  function AllPending(n: nat): (s: seq<BranchStatus>)
    ensures |s| == n && forall i :: 0 <= i < n ==> s[i] == Pending
  {
    seq(n, _ => Pending)
  }

  /** A saga is created submitted; the other modes are created prepared. */
  function Init(c: Config): State {
    State(if c.tt == Saga then Submitted else Prepared,
          AllPending(c.N()), AllPending(c.N()), map[], {}, map[], {}, {}, {}, false)
  }

  datatype Event =
    | Submit(w: nat)                 // Redis: one script; session w is born if inline driving is on
    | SubmitRead(k: nat)             // SQL: the SELECT of submit_prepared
    | SubmitWrite(k: nat, w: nat)    // SQL: its UPDATE, whose row count nobody looks at
    | AbortRead(k: nat)
    | AbortWrite(k: nat)
    | Lock(w: nat)
    | Timeout(w: nat)
    | Read(w: nat)                   // list the branches and decide
    | Answer(w: nat, r: Reply)
    | FanAnswer(w: nat, i: nat, r: Reply)
    | Write(w: nat)                  // write the global status
    | Leave(w: nat)

  // ---------- steps ----------

  /** What an empty branch list finishes as. Saga and message write Succeed whatever the status. */
  function EmptyTarget(c: Config, status: GlobalStatus): GlobalStatus {
    if (c.tt == Tcc || c.tt == Xa) && status == Aborting then Failed else Succeed
  }

  function Body(c: Config, status: GlobalStatus): Session {
    Session(status, if c.N() == 0 then Deciding(EmptyTarget(c, status)) else Looping)
  }

  /** Where `process` takes a row it has just locked. */
  function Entry(c: Config, status: GlobalStatus): Session {
    if status == Prepared && (c.tt == Tcc || c.tt == Xa) then Session(status, Timing)
    else if status == Prepared && c.tt == Msg then Session(status, Asking)
    else Body(c, status)
  }

  /** The message driver only looks at which rows have succeeded. */
  function DoneView(rows: seq<BranchStatus>): (r: seq<BranchStatus>)
    ensures |r| == |rows|
    ensures forall i :: 0 <= i < |rows| ==> r[i] == if rows[i] == Done then Done else Pending
  {
    seq(|rows|, i requires 0 <= i < |rows| => if rows[i] == Done then Done else Pending)
  }

  function Decide(c: Config, status: GlobalStatus, fwd: seq<BranchStatus>, bwd: seq<BranchStatus>): Advance
    requires |fwd| == c.N()
  {
    match c.tt
    case Msg => MsgNext(status, c.steps, DoneView(fwd))
    case Saga => SagaNext(status, fwd, bwd)
    case _ => TwoPhaseNext(status, fwd, bwd, c.FwdOp(), c.BwdOp())
  }

  /** `Store::transition`: compare and write, except that Redis writes blindly when the worker's
      status is one that nobody else can change. The flag is what the caller is told. */
  function Transition(c: Config, row: GlobalStatus, from: GlobalStatus, to: GlobalStatus): (GlobalStatus, bool) {
    if c.Shortcut() && !StatusContested(from, c.tt) then (to, true)
    else if row == from then (to, true)
    else (row, false)
  }

  function SetRow(rows: seq<BranchStatus>, i: nat, st: BranchStatus): (r: seq<BranchStatus>)
    ensures |r| == |rows|
  {
    if i < |rows| then rows[i := st] else rows
  }

  /** Book a Success or Failure reply for one branch: history and branch row. */
  function Book(c: Config, s: State, call: Call, ok: bool): State {
    var s1 := if ok then s.(acked := s.acked + {call}) else s.(refused := s.refused + {call});
    var st := if ok then Done else Refused;
    if call.op == c.FwdOp() then s1.(fwd := SetRow(s.fwd, call.index, st))
    else s1.(bwd := SetRow(s.bwd, call.index, st))
  }

  function Members(idxs: seq<nat>): (s: set<nat>)
    ensures forall i :: i in s <==> i in idxs
  {
    set i | i in idxs
  }

  function StepRead(c: Config, s: State, w: nat): State
    requires w in s.sessions && |s.fwd| == c.N()
  {
    var me := s.sessions[w];
    match Decide(c, me.status, s.fwd, s.bwd)
    case Finish(t) => s.(sessions := s.sessions[w := me.(pc := Deciding(t))])
    case CallOne(i, op) =>
      s.(sessions := s.sessions[w := me.(pc := Calling(Call(i, op)))], called := s.called + {Call(i, op)})
    case CallEach(idxs, op) =>
      s.(sessions := s.sessions[w := me.(pc := Fanout(Members(idxs), true))],
         called := s.called + set i | i in idxs :: Call(i, op))
    case _ => s.(sessions := s.sessions - {w})
  }

  function StepAnswer(c: Config, s: State, w: nat, r: Reply): State
    requires w in s.sessions && s.sessions[w].pc.Calling?
  {
    var me := s.sessions[w];
    var call := me.pc.call;
    match r
    case Success => Book(c, s, call, true).(sessions := s.sessions[w := me.(pc := Looping)])
    case Failure =>
      var s1 := Book(c, s, call, false);
      if c.tt == Saga && call.op == Action
      then s1.(sessions := s.sessions[w := me.(pc := Deciding(Aborting))])
      else s1.(sessions := s.sessions - {w})
    case _ => s.(sessions := s.sessions - {w})
  }

  function StepAsk(s: State, w: nat, r: Reply): State
    requires w in s.sessions
  {
    var me := s.sessions[w];
    match r
    case Success => s.(sessions := s.sessions[w := me.(pc := Deciding(Submitted))])
    case Failure => s.(sessions := s.sessions[w := me.(pc := Deciding(Failed))])
    case _ => s.(sessions := s.sessions - {w})
  }

  function StepFan(c: Config, s: State, w: nat, i: nat, r: Reply): State
    requires w in s.sessions && s.sessions[w].pc.Fanout?
  {
    var me := s.sessions[w];
    var waiting := me.pc.waiting - {i};
    var ok := me.pc.allOk && r == Success;
    var s1 := if r == Success then Book(c, s, Call(i, Action), true) else s;
    if waiting != {} then s1.(sessions := s.sessions[w := me.(pc := Fanout(waiting, ok))])
    else if ok then s1.(sessions := s.sessions[w := me.(pc := Looping)])
    else s1.(sessions := s.sessions - {w})
  }

  function StepWrite(c: Config, s: State, w: nat): State
    requires w in s.sessions && s.sessions[w].pc.Deciding?
  {
    var me := s.sessions[w];
    var to := me.pc.to;
    var (row, ok) := Transition(c, s.row, me.status, to);
    var sessions := if ok && !to.IsFinal() then s.sessions[w := Body(c, to)] else s.sessions - {w};
    s.(row := row, sessions := sessions)
  }

  function StepAbortRead(c: Config, s: State, k: nat): State {
    match AbortGuard(s.row, c.tt)
    case Refuse => s
    case AlreadyAborting => s.(abortOk := true)
    case TryWrite => s.(aborts := s.aborts[k := s.row])
  }

  /** A lost comparison sends the caller back to reading; a fresh `AbortRead` covers the retry. */
  function StepAbortWrite(c: Config, s: State, k: nat): State
    requires k in s.aborts
  {
    var (row, ok) := Transition(c, s.row, s.aborts[k], Aborting);
    s.(row := row, aborts := s.aborts - {k}, abortOk := s.abortOk || ok)
  }

  function WithInline(c: Config, s: State, w: nat): State {
    if c.inlineDrive then s.(sessions := s.sessions[w := Entry(c, Submitted)]) else s
  }

  function StepSubmitWrite(c: Config, s: State, k: nat, w: nat): State {
    WithInline(c, s.(row := if s.row == Prepared then Submitted else s.row, submits := s.submits - {k}), w)
  }

  /** The effect of one event, or None when it cannot happen in this state. */
  function Step(c: Config, s: State, e: Event): Option<State>
    requires |s.fwd| == c.N()
  {
    match e
    case Submit(w) =>
      if c.backend != RedisBackend || w in s.sessions then None
      else if SubmitWrites(s.row) then Some(WithInline(c, s.(row := Submitted), w))
      else Some(s)
    case SubmitRead(k) =>
      if c.backend != SqlBackend || k in s.submits then None
      else if SubmitWrites(s.row) then Some(s.(submits := s.submits + {k}))
      else Some(s)
    case SubmitWrite(k, w) =>
      if k !in s.submits || w in s.sessions then None else Some(StepSubmitWrite(c, s, k, w))
    case AbortRead(k) => if k in s.aborts then None else Some(StepAbortRead(c, s, k))
    case AbortWrite(k) => if k !in s.aborts then None else Some(StepAbortWrite(c, s, k))
    case Lock(w) =>
      if w in s.sessions || !Schedulable(s.row, c.tt) then None
      else Some(s.(sessions := s.sessions[w := Entry(c, s.row)]))
    case Timeout(w) =>
      if w !in s.sessions || s.sessions[w].pc != Timing then None
      else Some(s.(sessions := s.sessions[w := s.sessions[w].(pc := Deciding(Aborting))]))
    case Read(w) =>
      if w !in s.sessions || s.sessions[w].pc != Looping then None else Some(StepRead(c, s, w))
    case Answer(w, r) =>
      if w !in s.sessions then None
      else if s.sessions[w].pc.Calling? then Some(StepAnswer(c, s, w, r))
      else if s.sessions[w].pc == Asking then Some(StepAsk(s, w, r))
      else None
    case FanAnswer(w, i, r) =>
      if w !in s.sessions || !s.sessions[w].pc.Fanout? || i !in s.sessions[w].pc.waiting then None
      else Some(StepFan(c, s, w, i, r))
    case Write(w) =>
      if w !in s.sessions || !s.sessions[w].pc.Deciding? then None else Some(StepWrite(c, s, w))
    case Leave(w) =>
      if w !in s.sessions then None else Some(s.(sessions := s.sessions - {w}))
  }

  lemma StepKeepsWidth(c: Config, s: State, e: Event)
    requires |s.fwd| == c.N()
    ensures Step(c, s, e).Some? ==> |Step(c, s, e).value.fwd| == c.N()
  {
  }

  /** Run a sequence of events; None as soon as one of them cannot happen. */
  function Exec(c: Config, s: State, events: seq<Event>): Option<State>
    requires |s.fwd| == c.N()
    decreases |events|
  {
    if events == [] then Some(s)
    else
      StepKeepsWidth(c, s, events[0]);
      match Step(c, s, events[0])
      case None => None
      case Some(s') => Exec(c, s', events[1..])
  }

  /** The state a run of the whole system ends in. */
  function RunFrom(c: Config, events: seq<Event>): Option<State> {
    Exec(c, Init(c), events)
  }
}
