/** What stands in the rows of a transaction and in its status, against what happened: the replies
    that were heard, and the calls that submitted, aborted or timed it out. The statements are about
    the events of a run, not about how the steps are written. */
module CoordinatorHistory {
  import opened Types
  import opened Decisions
  import opened Coordinator
  import opened CoordinatorSafety
  import opened CoordinatorTheorems

  // ---------- rows against replies ----------

  predicate Answered(s: State, call: Call) {
    call in s.acked || call in s.refused
  }

  /** One column of branch rows tells which of its calls were answered, and with what. */
  predicate Tells(s: State, rows: seq<BranchStatus>, op: BranchOp) {
    forall i :: 0 <= i < |rows| ==>
      && (rows[i] == Pending <==> !Answered(s, Call(i, op)))
      && (rows[i] == Done ==> Call(i, op) in s.acked)
      && (rows[i] == Refused ==> Call(i, op) in s.refused)
  }

  predicate RowsInv(c: Config, s: State) {
    && |s.fwd| == c.N() && |s.bwd| == c.N()
    && Tells(s, s.fwd, c.FwdOp()) && Tells(s, s.bwd, c.BwdOp())
    && (c.tt == Msg ==> s.refused == {})
  }

  lemma BookTells(c: Config, s: State, call: Call, ok: bool)
    requires RowsInv(c, s) && (ok || c.tt != Msg) && (call.op == c.FwdOp() || call.op == c.BwdOp())
    ensures RowsInv(c, Book(c, s, call, ok))
  {
  }

  lemma RowsFrame(c: Config, s: State, s': State)
    requires RowsInv(c, s)
    requires s'.fwd == s.fwd && s'.bwd == s.bwd && s'.acked == s.acked && s'.refused == s.refused
    ensures RowsInv(c, s')
  {
  }

  /** The reply that an event books, if any. */
  function Booking(c: Config, s: State, e: Event): State {
    match e
    case Answer(w, r) =>
      if w in s.sessions && s.sessions[w].pc.Calling? && (r == Success || r == Failure)
      then Book(c, s, s.sessions[w].pc.call, r == Success) else s
    case FanAnswer(_, i, r) => if r == Success then Book(c, s, Call(i, Action), true) else s
    case _ => s
  }

  predicate SameReplies(s: State, s': State) {
    s'.fwd == s.fwd && s'.bwd == s.bwd && s'.acked == s.acked && s'.refused == s.refused
  }

  lemma ReadBooksNothing(c: Config, s: State, w: nat)
    requires |s.fwd| == c.N() && w in s.sessions
    ensures SameReplies(s, StepRead(c, s, w))
  {
    match Decide(c, s.sessions[w].status, s.fwd, s.bwd)
    case CallOne(_, _) =>
    case CallEach(_, _) =>
    case _ =>
  }

  /** Nothing else touches the rows or the replies. */
  lemma OnlyRepliesAreBooked(c: Config, s: State, e: Event)
    requires |s.fwd| == c.N() && Step(c, s, e).Some?
    ensures SameReplies(Booking(c, s, e), Step(c, s, e).value)
  {
    match e
    case Read(w) => ReadBooksNothing(c, s, w);
    case Answer(w, r) =>
      if s.sessions[w].pc.Calling? {
        AnswerBooks(c, s, w, r);
      }
    case _ =>
  }

  lemma AnswerBooks(c: Config, s: State, w: nat, r: Reply)
    requires |s.fwd| == c.N() && w in s.sessions && s.sessions[w].pc.Calling?
    ensures
      SameReplies(if r == Success || r == Failure then Book(c, s, s.sessions[w].pc.call, r == Success) else s,
                  StepAnswer(c, s, w, r))
  {
  }

  lemma BookingTells(c: Config, s: State, e: Event)
    requires c.Valid() && Inv(c, s) && RowsInv(c, s) && Step(c, s, e).Some?
    ensures RowsInv(c, Booking(c, s, e))
  {
    match e
    case Answer(w, r) =>
      assert Good(c, s, s.sessions[w]);
      if Booking(c, s, e) != s {
        BookTells(c, s, s.sessions[w].pc.call, r == Success);
      }
    case FanAnswer(w, i, r) =>
      assert Good(c, s, s.sessions[w]);
      if r == Success {
        BookTells(c, s, Call(i, Action), true);
      }
    case _ =>
  }

  lemma RowsStep(c: Config, s: State, e: Event)
    requires c.Valid() && Inv(c, s) && RowsInv(c, s) && Step(c, s, e).Some?
    ensures RowsInv(c, Step(c, s, e).value)
  {
    OnlyRepliesAreBooked(c, s, e);
    BookingTells(c, s, e);
    RowsFrame(c, Booking(c, s, e), Step(c, s, e).value);
  }

  lemma {:induction false} RowsExec(c: Config, s: State, events: seq<Event>)
    requires c.Valid() && Inv(c, s) && RowsInv(c, s) && Exec(c, s, events).Some?
    ensures RowsInv(c, Exec(c, s, events).value)
    decreases |events|
  {
    if events != [] {
      StepKeeps(c, s, events[0]);
      RowsStep(c, s, events[0]);
      RowsExec(c, Step(c, s, events[0]).value, events[1..]);
    }
  }

  lemma ReachableRows(c: Config, s: State)
    requires c.Valid() && Reachable(c, s)
    ensures Inv(c, s) && RowsInv(c, s)
  {
    var events :| RunFrom(c, events) == Some(s);
    InitInv(c);
    ReachableInv(c, s);
    RowsExec(c, Init(c), events);
  }

  /** A row is pending as long as no reply that counts was heard for its call, and otherwise shows one
      that was. A message books no refusal. */
  lemma RowsTellReplies(c: Config, s: State, i: nat, fwd: BranchOp, bwd: BranchOp)
    requires c.Valid() && Reachable(c, s) && i < c.N() && Operations(c.tt, fwd, bwd)
    ensures |s.fwd| == c.N() && |s.bwd| == c.N()
    ensures s.fwd[i] == Pending <==> Call(i, fwd) !in s.acked && Call(i, fwd) !in s.refused
    ensures s.bwd[i] == Pending <==> Call(i, bwd) !in s.acked && Call(i, bwd) !in s.refused
    ensures s.fwd[i] == Done ==> Call(i, fwd) in s.acked
    ensures s.bwd[i] == Done ==> Call(i, bwd) in s.acked
    ensures s.fwd[i] == Refused ==> Call(i, fwd) in s.refused && c.tt != Msg
    ensures s.bwd[i] == Refused ==> Call(i, bwd) in s.refused
  {
    ReachableRows(c, s);
  }

  // ---------- who moved the row ----------

  predicate Submitting(events: seq<Event>) {
    exists e :: e in events && (e.Submit? || e.SubmitWrite?)
  }

  predicate Aborted(events: seq<Event>) {
    exists e :: e in events && e.AbortWrite?
  }

  predicate TimedOut(events: seq<Event>) {
    exists e :: e in events && e.Timeout?
  }

  /** Some worker heard this reply, to a branch call or to a query. */
  predicate Heard(events: seq<Event>, r: Reply) {
    exists e :: e in events && e.Answer? && e.r == r
  }

  /** Some action of a saga was refused. */
  ghost predicate Declined(s: State) {
    exists i: nat :: Call(i, Action) in s.refused
  }

  /** What has to have happened for the row, or a worker's belief, to be in this status. */
  ghost predicate Caused(c: Config, events: seq<Event>, s: State, status: GlobalStatus) {
    match status
    case Prepared => true
    case Submitted => c.tt == Saga || Submitting(events) || (c.tt == Msg && Heard(events, Success))
    case Aborting => TurnedBack(c, events, s)
    case Succeed =>
      || c.tt == Saga || Submitting(events) || (c.tt == Msg && Heard(events, Success))
      || (!Lossless(c) && TurnedBack(c, events, s))
    case Failed => TurnedBack(c, events, s) || (c.tt == Msg && Heard(events, Failure))
  }

  ghost predicate TurnedBack(c: Config, events: seq<Event>, s: State) {
    || Aborted(events)
    || ((c.tt == Tcc || c.tt == Xa) && TimedOut(events))
    || (c.tt == Saga && Declined(s))
  }

  ghost predicate CauseInv(c: Config, events: seq<Event>, s: State) {
    && Caused(c, events, s, s.row)
    && (s.refused != {} ==> Heard(events, Failure))
    && forall w :: w in s.sessions ==> SessionCaused(c, events, s, s.sessions[w])
  }

  ghost predicate SessionCaused(c: Config, events: seq<Event>, s: State, me: Session) {
    Caused(c, events, s, me.status) && (me.pc.Deciding? ==> Caused(c, events, s, me.pc.to))
  }

  predicate Longer(events: seq<Event>, all: seq<Event>) {
    forall e :: e in events ==> e in all
  }

  lemma CausesStay(c: Config, events: seq<Event>, s: State, all: seq<Event>, s': State, status: GlobalStatus)
    requires Caused(c, events, s, status) && Longer(events, all) && s.refused <= s'.refused
    ensures Caused(c, all, s', status)
  {
    if Submitting(events) {
      assert Submitting(all);
    }
    if Aborted(events) {
      assert Aborted(all);
    }
    if TimedOut(events) {
      assert TimedOut(all);
    }
    HeardStays(events, all, Success);
    HeardStays(events, all, Failure);
    if Declined(s) {
      assert Declined(s');
    }
  }

  lemma HeardStays(events: seq<Event>, all: seq<Event>, r: Reply)
    requires Longer(events, all)
    ensures Heard(events, r) ==> Heard(all, r)
  {
  }

  lemma SessionsStay(c: Config, events: seq<Event>, s: State, all: seq<Event>, s': State, w: nat)
    requires CauseInv(c, events, s) && Longer(events, all) && s.refused <= s'.refused
    requires forall v :: v in s'.sessions && v != w ==> v in s.sessions && s'.sessions[v] == s.sessions[v]
    requires w in s'.sessions ==> SessionCaused(c, all, s', s'.sessions[w])
    ensures forall v :: v in s'.sessions ==> SessionCaused(c, all, s', s'.sessions[v])
  {
    forall v | v in s'.sessions
      ensures SessionCaused(c, all, s', s'.sessions[v])
    {
      if v != w {
        assert SessionCaused(c, events, s, s.sessions[v]);
        CausesStay(c, events, s, all, s', s.sessions[v].status);
        if s.sessions[v].pc.Deciding? {
          CausesStay(c, events, s, all, s', s.sessions[v].pc.to);
        }
      }
    }
  }

  /** The row stays, and one session moves. */
  lemma OneSession(c: Config, events: seq<Event>, s: State, all: seq<Event>, s': State, w: nat)
    requires CauseInv(c, events, s) && Longer(events, all)
    requires s'.row == s.row && s.refused <= s'.refused && (s'.refused == s.refused || Heard(all, Failure))
    requires forall v :: v in s'.sessions && v != w ==> v in s.sessions && s'.sessions[v] == s.sessions[v]
    requires w in s'.sessions ==> SessionCaused(c, all, s', s'.sessions[w])
    ensures CauseInv(c, all, s')
  {
    CausesStay(c, events, s, all, s', s.row);
    HeardStays(events, all, Failure);
    SessionsStay(c, events, s, all, s', w);
  }

  /** What an empty branch list finishes as has the same causes. */
  lemma BodyCaused(c: Config, all: seq<Event>, s: State, status: GlobalStatus)
    requires status == Submitted || status == Aborting
    requires Caused(c, all, s, status)
    ensures SessionCaused(c, all, s, Body(c, status))
  {
  }

  lemma EntryCaused(c: Config, all: seq<Event>, s: State, status: GlobalStatus)
    requires Schedulable(status, c.tt) && Caused(c, all, s, status)
    requires status == Prepared ==> c.tt != Saga && c.tt != Workflow
    ensures SessionCaused(c, all, s, Entry(c, status))
  {
    if status != Prepared {
      BodyCaused(c, all, s, status);
    }
  }

  /** What a worker finishes with has the causes of the status it holds, or a refused action. */
  lemma FinishCaused(c: Config, events: seq<Event>, s: State, status: GlobalStatus, to: GlobalStatus)
    requires c.Valid() && RowsInv(c, s) && c.N() > 0 && (status == Submitted || status == Aborting)
    requires Caused(c, events, s, status) && Decide(c, status, s.fwd, s.bwd) == Finish(to)
    ensures Caused(c, events, s, to)
  {
    if to == Aborting {
      var i := FirstUnfinished(s.fwd);
      assert Call(i, Action) in s.refused;
    }
  }

  lemma CauseRead(c: Config, events: seq<Event>, s: State, w: nat, all: seq<Event>)
    requires c.Valid() && Inv(c, s) && RowsInv(c, s) && CauseInv(c, events, s) && Longer(events, all)
    requires w in s.sessions && s.sessions[w].pc == Looping
    ensures CauseInv(c, all, StepRead(c, s, w))
  {
    var me, s' := s.sessions[w], StepRead(c, s, w);
    assert Good(c, s, me) && SessionCaused(c, events, s, me);
    ReadBooksNothing(c, s, w);
    ReadMoves(c, s, w);
    CausesStay(c, events, s, all, s', me.status);
    match Decide(c, me.status, s.fwd, s.bwd) {
      case Finish(to) =>
        FinishCaused(c, events, s, me.status, to);
        CausesStay(c, events, s, all, s', to);
      case _ =>
    }
    OneSession(c, events, s, all, s', w);
  }

  /** Reading moves the worker that reads, and nobody else. */
  lemma ReadMoves(c: Config, s: State, w: nat)
    requires |s.fwd| == c.N() && w in s.sessions
    ensures
      var s' := StepRead(c, s, w);
      && s'.row == s.row
      && (forall v :: v in s'.sessions && v != w ==> v in s.sessions && s'.sessions[v] == s.sessions[v])
      && (w in s'.sessions ==>
            && s'.sessions[w].status == s.sessions[w].status
            && (s'.sessions[w].pc.Deciding? ==>
                  Decide(c, s.sessions[w].status, s.fwd, s.bwd) == Finish(s'.sessions[w].pc.to)))
  {
    match Decide(c, s.sessions[w].status, s.fwd, s.bwd)
    case Finish(_) =>
    case CallOne(_, _) =>
    case CallEach(_, _) =>
    case _ =>
  }

  lemma CauseAnswer(c: Config, events: seq<Event>, s: State, w: nat, r: Reply, all: seq<Event>)
    requires c.Valid() && Inv(c, s) && CauseInv(c, events, s) && Longer(events, all) && Answer(w, r) in all
    requires w in s.sessions && s.sessions[w].pc.Calling?
    ensures CauseInv(c, all, StepAnswer(c, s, w, r))
  {
    var me, s' := s.sessions[w], StepAnswer(c, s, w, r);
    assert Good(c, s, me) && SessionCaused(c, events, s, me);
    assert s.refused <= s'.refused;
    CausesStay(c, events, s, all, s', me.status);
    if r == Failure {
      assert Heard(all, Failure);
      assert me.pc.call in s'.refused;
      if c.tt == Saga && me.pc.call.op == Action {
        assert Call(me.pc.call.index, Action) in s'.refused;
        assert Declined(s');
      }
    }
    OneSession(c, events, s, all, s', w);
  }

  lemma CauseAsk(c: Config, events: seq<Event>, s: State, w: nat, r: Reply, all: seq<Event>)
    requires c.Valid() && Inv(c, s) && CauseInv(c, events, s) && Longer(events, all) && Answer(w, r) in all
    requires w in s.sessions && s.sessions[w].pc == Asking
    ensures CauseInv(c, all, StepAsk(s, w, r))
  {
    var me, s' := s.sessions[w], StepAsk(s, w, r);
    assert Good(c, s, me);
    assert Heard(all, r);
    OneSession(c, events, s, all, s', w);
  }

  lemma CauseFan(c: Config, events: seq<Event>, s: State, w: nat, i: nat, r: Reply, all: seq<Event>)
    requires c.Valid() && Inv(c, s) && CauseInv(c, events, s) && Longer(events, all)
    requires w in s.sessions && s.sessions[w].pc.Fanout?
    ensures CauseInv(c, all, StepFan(c, s, w, i, r))
  {
    var me, s' := s.sessions[w], StepFan(c, s, w, i, r);
    assert SessionCaused(c, events, s, me);
    CausesStay(c, events, s, all, s', me.status);
    OneSession(c, events, s, all, s', w);
  }

  lemma CauseWrite(c: Config, events: seq<Event>, s: State, w: nat, all: seq<Event>)
    requires c.Valid() && Inv(c, s) && CauseInv(c, events, s) && Longer(events, all)
    requires w in s.sessions && s.sessions[w].pc.Deciding?
    ensures CauseInv(c, all, StepWrite(c, s, w))
  {
    var me, s' := s.sessions[w], StepWrite(c, s, w);
    assert Good(c, s, me) && SessionCaused(c, events, s, me);
    CausesStay(c, events, s, all, s', s.row);
    CausesStay(c, events, s, all, s', me.pc.to);
    HeardStays(events, all, Failure);
    if !me.pc.to.IsFinal() {
      BodyCaused(c, all, s', me.pc.to);
    }
    SessionsStay(c, events, s, all, s', w);
  }

  lemma CauseSubmit(c: Config, events: seq<Event>, s: State, w: nat, all: seq<Event>, s0: State)
    requires c.Valid() && Inv(c, s) && CauseInv(c, events, s) && Longer(events, all) && Submitting(all)
    requires s0 == s.(row := s0.row, submits := s0.submits) && (s0.row == s.row || s0.row == Submitted)
    ensures CauseInv(c, all, WithInline(c, s0, w))
  {
    var s' := WithInline(c, s0, w);
    CausesStay(c, events, s, all, s', s.row);
    HeardStays(events, all, Failure);
    EntryCaused(c, all, s', Submitted);
    SessionsStay(c, events, s, all, s', w);
  }

  lemma CauseAbort(c: Config, events: seq<Event>, s: State, k: nat, all: seq<Event>)
    requires c.Valid() && Inv(c, s) && CauseInv(c, events, s) && Longer(events, all) && Aborted(all) && k in s.aborts
    ensures CauseInv(c, all, StepAbortWrite(c, s, k))
  {
    var s' := StepAbortWrite(c, s, k);
    CausesStay(c, events, s, all, s', s.row);
    HeardStays(events, all, Failure);
    SessionsStay(c, events, s, all, s', 0);
  }

  lemma CauseLock(c: Config, events: seq<Event>, s: State, w: nat, all: seq<Event>)
    requires c.Valid() && Inv(c, s) && CauseInv(c, events, s) && Longer(events, all)
    requires w !in s.sessions && Schedulable(s.row, c.tt)
    ensures CauseInv(c, all, s.(sessions := s.sessions[w := Entry(c, s.row)]))
  {
    var s' := s.(sessions := s.sessions[w := Entry(c, s.row)]);
    CausesStay(c, events, s, all, s', s.row);
    EntryCaused(c, all, s', s.row);
    OneSession(c, events, s, all, s', w);
  }

  lemma CauseTimeout(c: Config, events: seq<Event>, s: State, w: nat, all: seq<Event>)
    requires c.Valid() && Inv(c, s) && CauseInv(c, events, s) && Longer(events, all) && TimedOut(all)
    requires w in s.sessions && s.sessions[w].pc == Timing
    ensures CauseInv(c, all, s.(sessions := s.sessions[w := s.sessions[w].(pc := Deciding(Aborting))]))
  {
    assert Good(c, s, s.sessions[w]);
    OneSession(c, events, s, all, s.(sessions := s.sessions[w := s.sessions[w].(pc := Deciding(Aborting))]), w);
  }

  /** A read from outside, or a worker that vanishes. */
  lemma CauseNothing(c: Config, events: seq<Event>, s: State, all: seq<Event>, s': State)
    requires CauseInv(c, events, s) && Longer(events, all)
    requires s'.row == s.row && s'.refused == s.refused
    requires forall v :: v in s'.sessions ==> v in s.sessions && s'.sessions[v] == s.sessions[v]
    ensures CauseInv(c, all, s')
  {
    CausesStay(c, events, s, all, s', s.row);
    HeardStays(events, all, Failure);
    forall v | v in s'.sessions
      ensures SessionCaused(c, all, s', s'.sessions[v])
    {
      assert SessionCaused(c, events, s, s.sessions[v]);
      CausesStay(c, events, s, all, s', s.sessions[v].status);
      if s.sessions[v].pc.Deciding? {
        CausesStay(c, events, s, all, s', s.sessions[v].pc.to);
      }
    }
  }

  lemma CauseStep(c: Config, events: seq<Event>, s: State, e: Event, all: seq<Event>)
    requires c.Valid() && Inv(c, s) && RowsInv(c, s) && CauseInv(c, events, s)
    requires Longer(events, all) && e in all && Step(c, s, e).Some?
    ensures CauseInv(c, all, Step(c, s, e).value)
  {
    match e
    case Read(w) => CauseRead(c, events, s, w, all);
    case Answer(w, r) =>
      if s.sessions[w].pc.Calling? {
        CauseAnswer(c, events, s, w, r, all);
      } else {
        CauseAsk(c, events, s, w, r, all);
      }
    case FanAnswer(w, i, r) => CauseFan(c, events, s, w, i, r, all);
    case Write(w) => CauseWrite(c, events, s, w, all);
    case Submit(w) =>
      assert Submitting(all);
      if SubmitWrites(s.row) {
        CauseSubmit(c, events, s, w, all, s.(row := Submitted));
      } else {
        CauseNothing(c, events, s, all, s);
      }
    case SubmitWrite(k, w) =>
      assert Submitting(all);
      CauseSubmit(c, events, s, w, all,
        s.(row := if s.row == Prepared then Submitted else s.row, submits := s.submits - {k}));
    case AbortWrite(k) =>
      assert Aborted(all);
      CauseAbort(c, events, s, k, all);
    case Lock(w) => CauseLock(c, events, s, w, all);
    case Timeout(w) =>
      assert TimedOut(all);
      CauseTimeout(c, events, s, w, all);
    case _ => CauseNothing(c, events, s, all, Step(c, s, e).value);
  }

  lemma {:induction false} CauseExec(c: Config, done: seq<Event>, s: State, events: seq<Event>)
    requires c.Valid() && Inv(c, s) && RowsInv(c, s) && CauseInv(c, done, s) && Exec(c, s, events).Some?
    ensures CauseInv(c, done + events, Exec(c, s, events).value)
    decreases |events|
  {
    if events == [] {
      assert done + events == done;
    } else {
      var now := done + [events[0]];
      CauseStep(c, done, s, events[0], now);
      StepKeeps(c, s, events[0]);
      RowsStep(c, s, events[0]);
      assert now + events[1..] == done + events;
      CauseExec(c, now, Step(c, s, events[0]).value, events[1..]);
    }
  }

  lemma RunCauses(c: Config, events: seq<Event>, s: State)
    requires c.Valid() && RunFrom(c, events) == Some(s)
    ensures CauseInv(c, events, s)
  {
    InitInv(c);
    assert [] + events == events;
    CauseExec(c, [], Init(c), events);
  }

  /** A message that its caller never submitted becomes submitted only if some query was answered
      Success; one that was never aborted becomes failed only if some query was answered Failure. */
  lemma MessageFollowsAnswers(c: Config, events: seq<Event>, s: State)
    requires c.Valid() && c.tt == Msg && RunFrom(c, events) == Some(s)
    ensures s.row == Submitted ==> Submitting(events) || exists w :: Answer(w, Success) in events
    ensures s.row == Aborting ==> Aborted(events)
    ensures s.row == Failed ==> Aborted(events) || exists w :: Answer(w, Failure) in events
    ensures s.row == Succeed && c.N() > 0 ==> Submitting(events) || exists w :: Answer(w, Success) in events
  {
    RunCauses(c, events, s);
  }

  /** A saga turns back only when it was aborted, or when some action was answered Failure: a reply
      that is ongoing or unknown never undoes anything. */
  lemma SagaTurnsBackOnlyFor(c: Config, events: seq<Event>, s: State)
    requires c.Valid() && c.tt == Saga && RunFrom(c, events) == Some(s) && (s.row == Aborting || s.row == Failed)
    ensures Aborted(events) ||
            ((exists w :: Answer(w, Failure) in events) && exists i: nat :: Call(i, Action) in s.refused)
  {
    RunCauses(c, events, s);
  }

  /** A TCC or XA transaction turns back only when it was aborted, or timed out while prepared: no
      reply turns it around. And it goes forward only when it was submitted. */
  lemma TwoPhaseTurnsBackOnlyFor(c: Config, events: seq<Event>, s: State)
    requires c.Valid() && (c.tt == Tcc || c.tt == Xa) && RunFrom(c, events) == Some(s)
    ensures s.row == Aborting || s.row == Failed ==> Aborted(events) || TimedOut(events)
    ensures s.row == Submitted || s.row == Succeed ==> Submitting(events)
  {
    RunCauses(c, events, s);
  }
}
