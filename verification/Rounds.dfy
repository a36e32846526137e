/** One round of the saga and of the two-phase driver: it ends after a bounded number of calls,
    and it is a run of the step machine in Coordinator. */
module Rounds {
  import opened Types
  import opened BranchIds
  import opened Decisions
  import opened Coordinator
  import opened Driver

  // ---------- finding a row again ----------

  predicate HasRow(rows: seq<BranchRow>, id: string, op: BranchOp) {
    exists k :: 0 <= k < |rows| && rows[k].id == id && rows[k].op == op
  }

  /** `set_branch_status`. */
  function SetStatus(rows: seq<BranchRow>, id: string, op: BranchOp, st: BranchStatus): (r: seq<BranchRow>)
    ensures |r| == |rows|
    ensures forall k :: 0 <= k < |r| ==>
      r[k] == if rows[k].id == id && rows[k].op == op then rows[k].(status := st) else rows[k]
  {
    seq(|rows|, k requires 0 <= k < |rows| =>
      if rows[k].id == id && rows[k].op == op then rows[k].(status := st) else rows[k])
  }

  /** The row that decides what the driver sees as branch i. */
  function DecidingRow(rows: seq<BranchRow>, i: nat, ops: set<BranchOp>): (r: Option<BranchRow>)
    ensures r.Some? ==> IsRow(r.value, i, ops)
  {
    if rows == [] then None
    else if IsRow(rows[|rows| - 1], i, ops) then Some(rows[|rows| - 1])
    else DecidingRow(rows[..|rows| - 1], i, ops)
  }

  lemma SetStatusSnoc(rows: seq<BranchRow>, id: string, op: BranchOp, st: BranchStatus)
    requires rows != []
    ensures SetStatus(rows, id, op, st)[..|rows| - 1] == SetStatus(rows[..|rows| - 1], id, op, st)
  {
  }

  lemma {:induction false} LatestAfterSet(rows: seq<BranchRow>, i: nat, op: BranchOp, st: BranchStatus, j: nat,
                                          ops: set<BranchOp>, default: BranchStatus)
    ensures
      Latest(SetStatus(rows, BranchId(i), op, st), j, ops, default) ==
        var r := DecidingRow(rows, j, ops);
        if j == i && r.Some? && r.value.id == BranchId(i) && r.value.op == op then st
        else Latest(rows, j, ops, default)
    decreases |rows|
  {
    if rows != [] {
      SetStatusSnoc(rows, BranchId(i), op, st);
      IndexOfBranchId(i);
      if !IsRow(rows[|rows| - 1], j, ops) {
        LatestAfterSet(rows[..|rows| - 1], i, op, st, j, ops, default);
      }
    }
  }

  /** A status the driver writes is a status the driver reads back, for every status, exactly when
      the row that decides the branch is the one whose number the driver regenerates. Otherwise the
      same branch is called again and again. */
  lemma WrittenIsReadExactly(rows: seq<BranchRow>, i: nat, op: BranchOp, n: nat)
    requires i < n
    ensures
      (forall st :: Column(SetStatus(rows, BranchId(i), op, st), n, {op}, Pending)[i] == st)
      <==> (DecidingRow(rows, i, {op}).Some? && DecidingRow(rows, i, {op}).value.id == BranchId(i))
  {
    forall st
      ensures Column(SetStatus(rows, BranchId(i), op, st), n, {op}, Pending)[i] ==
                var r := DecidingRow(rows, i, {op});
                if r.Some? && r.value.id == BranchId(i) then st else Latest(rows, i, {op}, Pending)
    {
      LatestAfterSet(rows, i, op, st, i, {op}, Pending);
    }
    var was := Latest(rows, i, {op}, Pending);
    var other := if was == Done then Pending else Done;
    assert Column(SetStatus(rows, BranchId(i), op, other), n, {op}, Pending)[i] == other ||
           Column(SetStatus(rows, BranchId(i), op, other), n, {op}, Pending)[i] == was;
  }

  /** No two rows of one operation parse to the same branch. */
  predicate NoAlias(rows: seq<BranchRow>) {
    forall a, b :: 0 <= a < b < |rows| && rows[a].op == rows[b].op && IndexOf(rows[a].id).Some? ==>
      IndexOf(rows[a].id) != IndexOf(rows[b].id)
  }

  /** The registration guard and the primary key give that. */
  lemma CanonicalRowsDoNotAlias(rows: seq<BranchRow>)
    requires forall k :: 0 <= k < |rows| ==> IsCanonicalBranchId(rows[k].id)
    requires forall a, b :: 0 <= a < b < |rows| ==> rows[a].id != rows[b].id || rows[a].op != rows[b].op
    ensures NoAlias(rows)
  {
    forall a, b | 0 <= a < b < |rows| && rows[a].op == rows[b].op && IndexOf(rows[a].id).Some?
      ensures IndexOf(rows[a].id) != IndexOf(rows[b].id)
    {
      assert IsCanonicalBranchId(rows[a].id) && IsCanonicalBranchId(rows[b].id);
    }
  }

  predicate OnlyOp(rows: seq<BranchRow>, ops: set<BranchOp>, op: BranchOp) {
    forall k :: 0 <= k < |rows| && rows[k].op in ops ==> rows[k].op == op
  }

  lemma {:induction false} DecidedByItsRow(rows: seq<BranchRow>, i: nat, op: BranchOp, ops: set<BranchOp>)
    requires NoAlias(rows) && HasRow(rows, BranchId(i), op) && i <= MAX_BRANCH_INDEX && op in ops &&
      OnlyOp(rows, ops, op)
    ensures DecidingRow(rows, i, ops).Some? && DecidingRow(rows, i, ops).value.id == BranchId(i)
            && DecidingRow(rows, i, ops).value.op == op
    decreases |rows|
  {
    IndexOfBranchId(i);
    var k :| 0 <= k < |rows| && rows[k].id == BranchId(i) && rows[k].op == op;
    var m := |rows| - 1;
    if IsRow(rows[m], i, ops) {
      assert k == m;
    } else {
      assert rows[..m][k] == rows[k];
      DecidedByItsRow(rows[..m], i, op, ops);
    }
  }

  lemma ColumnAfterSet(rows: seq<BranchRow>, i: nat, op: BranchOp, st: BranchStatus, n: nat, ops: set<BranchOp>)
    requires NoAlias(rows) && HasRow(rows, BranchId(i), op) && i < n <= MAX_BRANCH_INDEX + 1 && OnlyOp(rows, ops, op)
    ensures
      var c := Column(rows, n, ops, Pending);
      Column(SetStatus(rows, BranchId(i), op, st), n, ops, Pending) == if op in ops then c[i := st] else c
  {
    forall j | 0 <= j < n
      ensures Latest(SetStatus(rows, BranchId(i), op, st), j, ops, Pending) ==
              if op in ops && j == i then st else Latest(rows, j, ops, Pending)
    {
      LatestAfterSet(rows, i, op, st, j, ops, Pending);
      if op in ops {
        DecidedByItsRow(rows, i, op, ops);
      }
    }
  }

  // ---------- the worker and the step machine ----------

  /** The rows of one global transaction, as the worker and an aborting caller change them. */
  class Store {
    const tt: TransType
    var status: GlobalStatus
    var rows: seq<BranchRow>

    constructor (tt: TransType, status: GlobalStatus, rows: seq<BranchRow>)
      ensures this.tt == tt && this.status == status && this.rows == rows
    {
      this.tt, this.status, this.rows := tt, status, rows;
    }

    method CompareAndWrite(from: GlobalStatus, to: GlobalStatus) returns (ok: bool)
      modifies this`status
      ensures ok == (old(status) == from)
      ensures status == if ok then to else old(status)
    {
      ok := status == from;
      if ok {
        status := to;
      }
    }

    /** One round of `Api::abort`, read and write in one. */
    method Abort()
      modifies this`status
      ensures status == if AbortGuard(old(status), tt) == TryWrite then Aborting else old(status)
    {
      if AbortGuard(status, tt) == TryWrite {
        var _ := CompareAndWrite(status, Aborting);
      }
    }
  }

  function PlainConfig(tt: TransType, n: nat): (c: Config)
    ensures c.N() == n
  {
    Config(tt, SqlBackend, false, false, seq(n, i => i))
  }

  function FwdOps(c: Config): set<BranchOp> {
    if c.tt == Saga then FORWARD else {c.FwdOp()}
  }

  function BwdOps(c: Config): set<BranchOp> {
    if c.tt == Saga then BACKWARD else {c.BwdOp()}
  }

  /** The machine state with this status, and with the worker's session as number 0. */
  ghost predicate Worker(c: Config, s: State, row: GlobalStatus, me: Option<Session>) {
    && |s.fwd| == c.N()
    && s.row == row
    && (if me.Some? then 0 in s.sessions && s.sessions[0] == me.value else 0 !in s.sessions)
    && 0 !in s.aborts
  }

  /** The machine state that shows these rows as well. */
  ghost predicate At(c: Config, s: State, row: GlobalStatus, rows: seq<BranchRow>, me: Option<Session>) {
    && Worker(c, s, row, me)
    && s.fwd == Column(rows, c.N(), FwdOps(c), Pending)
    && s.bwd == Column(rows, c.N(), BwdOps(c), Pending)
  }

  lemma {:induction false} ExecAppend(c: Config, s: State, events: seq<Event>, tail: seq<Event>)
    requires |s.fwd| == c.N() && Exec(c, s, events).Some?
    ensures |Exec(c, s, events).value.fwd| == c.N()
    ensures Exec(c, s, events + tail) == Exec(c, Exec(c, s, events).value, tail)
    decreases |events|
  {
    if events == [] {
      assert [] + tail == tail;
    } else {
      StepKeepsWidth(c, s, events[0]);
      assert (events + tail)[1..] == events[1..] + tail;
      ExecAppend(c, Step(c, s, events[0]).value, events[1..], tail);
    }
  }

  lemma ExecOne(c: Config, s: State, e: Event)
    requires |s.fwd| == c.N()
    ensures Exec(c, s, [e]) == Step(c, s, e)
  {
    StepKeepsWidth(c, s, e);
  }

  lemma AbortSteps(c: Config, s: State) returns (tail: seq<Event>, s': State)
    requires |s.fwd| == c.N() && 0 !in s.aborts && AbortGuard(s.row, c.tt) == TryWrite && !c.Shortcut()
    ensures Exec(c, s, tail) == Some(s') && s' == s.(row := Aborting, abortOk := true)
  {
    var s1 := Step(c, s, AbortRead(0)).value;
    assert s1.aborts == s.aborts[0 := s.row];
    s' := Step(c, s1, AbortWrite(0)).value;
    assert s'.aborts == s.aborts;
    tail := [AbortRead(0)] + [AbortWrite(0)];
    ExecOne(c, s, AbortRead(0));
    ExecOne(c, s1, AbortWrite(0));
    ExecAppend(c, s, [AbortRead(0)], [AbortWrite(0)]);
  }

  /** `Driver::transition`; `lands` says whether a caller's abort arrives just before the write. */
  method Transition(store: Store, from: GlobalStatus, to: GlobalStatus, lands: bool, ghost c: Config, ghost s: State)
    returns (ok: bool, ghost tail: seq<Event>, ghost s': State)
    requires Worker(c, s, store.status, Some(Session(from, Deciding(to))))
    requires from != to && !c.Shortcut() && c.tt == store.tt
    modifies store`status
    ensures Exec(c, s, tail) == Some(s')
    ensures Worker(c, s', store.status, if ok && !to.IsFinal() then Some(Body(c, to)) else None)
    ensures s'.fwd == s.fwd && s'.bwd == s.bwd
    ensures s'.called == s.called
    ensures
      var met := if lands && AbortGuard(old(store.status), store.tt) == TryWrite then Aborting else old(store.status);
      && (ok <==> met == from)
      && store.status == if ok then to else met
  {
    tail, s' := [], s;
    if lands {
      if AbortGuard(store.status, store.tt) == TryWrite {
        tail, s' := AbortSteps(c, s);
      }
      store.Abort();
    }
    ok := store.CompareAndWrite(from, to);
    ghost var s1 := s';
    s' := Step(c, s1, Write(0)).value;
    ExecOne(c, s1, Write(0));
    ExecAppend(c, s, tail, [Write(0)]);
    tail := tail + [Write(0)];
  }

  // ---------- one call ----------

  /** The driver finds the row of this call by its regenerated number, and it decides the column. */
  predicate Addressable(c: Config, rows: seq<BranchRow>, call: Call) {
    && NoAlias(rows) && HasRow(rows, BranchId(call.index), call.op)
    && call.index < c.N() <= MAX_BRANCH_INDEX + 1
    && (call.op == c.FwdOp() || call.op == c.BwdOp())
    && call.op in (if call.op == c.FwdOp() then FwdOps(c) else BwdOps(c))
    && OnlyOp(rows, if call.op == c.FwdOp() then FwdOps(c) else BwdOps(c), call.op)
  }

  function Booked(rows: seq<BranchRow>, call: Call, r: Reply): seq<BranchRow> {
    match r
    case Success => SetStatus(rows, BranchId(call.index), call.op, Done)
    case Failure => SetStatus(rows, BranchId(call.index), call.op, Refused)
    case _ => rows
  }

  function AfterCall(c: Config, status: GlobalStatus, call: Call, r: Reply): Option<Session> {
    match r
    case Success => Some(Session(status, Looping))
    case Failure => if c.tt == Saga && call.op == Action then Some(Session(status, Deciding(Aborting))) else None
    case _ => None
  }

  lemma BookedColumns(c: Config, rows: seq<BranchRow>, call: Call, r: Reply)
    requires c.tt == Saga || c.tt == Tcc || c.tt == Xa
    requires Addressable(c, rows, call)
    ensures
      var rows', n, fwd, bwd := Booked(rows, call, r), c.N(), FwdOps(c), BwdOps(c);
      var st := if r == Success then Done else Refused;
      && Column(rows', n, fwd, Pending) ==
           (if (r == Success || r == Failure) && call.op == c.FwdOp()
            then Column(rows, n, fwd, Pending)[call.index := st] else Column(rows, n, fwd, Pending))
      && Column(rows', n, bwd, Pending) ==
           (if (r == Success || r == Failure) && call.op == c.BwdOp()
            then Column(rows, n, bwd, Pending)[call.index := st] else Column(rows, n, bwd, Pending))
  {
    var st := if r == Success then Done else Refused;
    if r == Success || r == Failure {
      if call.op == c.FwdOp() {
        ColumnAfterSet(rows, call.index, call.op, st, c.N(), FwdOps(c));
        ColumnUntouched(rows, call.index, call.op, st, c.N(), BwdOps(c));
      } else {
        ColumnAfterSet(rows, call.index, call.op, st, c.N(), BwdOps(c));
        ColumnUntouched(rows, call.index, call.op, st, c.N(), FwdOps(c));
      }
    }
  }

  lemma ColumnUntouched(rows: seq<BranchRow>, i: nat, op: BranchOp, st: BranchStatus, n: nat, ops: set<BranchOp>)
    requires op !in ops
    ensures Column(SetStatus(rows, BranchId(i), op, st), n, ops, Pending) == Column(rows, n, ops, Pending)
  {
    forall j | 0 <= j < n
      ensures Latest(SetStatus(rows, BranchId(i), op, st), j, ops, Pending) == Latest(rows, j, ops, Pending)
    {
      LatestAfterSet(rows, i, op, st, j, ops, Pending);
    }
  }

  lemma ReadStep(c: Config, s: State, st: GlobalStatus, call: Call) returns (s1: State)
    requires |s.fwd| == c.N() && 0 in s.sessions && s.sessions[0] == Session(st, Looping)
    requires Decide(c, st, s.fwd, s.bwd) == CallOne(call.index, call.op)
    ensures Step(c, s, Read(0)) == Some(s1)
    ensures s1 == s.(sessions := s.sessions[0 := Session(st, Calling(call))], called := s.called + {call})
  {
    s1 := StepRead(c, s, 0);
  }

  lemma AnswerStep(c: Config, s: State, row: GlobalStatus, rows: seq<BranchRow>, st: GlobalStatus, call: Call, r: Reply)
    returns (s': State)
    requires c.tt == Saga || c.tt == Tcc || c.tt == Xa
    requires At(c, s, row, rows, Some(Session(st, Calling(call)))) && Addressable(c, rows, call)
    ensures Step(c, s, Answer(0, r)) == Some(s') && s'.called == s.called
    ensures At(c, s', row, Booked(rows, call, r), AfterCall(c, st, call, r))
  {
    BookedColumns(c, rows, call, r);
    s' := StepAnswer(c, s, 0, r);
  }

  /** Deciding on a call, making it and booking the reply are two steps of the machine. */
  lemma CallSteps(c: Config, s: State, row: GlobalStatus, rows: seq<BranchRow>, st: GlobalStatus, call: Call, r: Reply)
    returns (tail: seq<Event>, s': State)
    requires c.tt == Saga || c.tt == Tcc || c.tt == Xa
    requires At(c, s, row, rows, Some(Session(st, Looping)))
    requires Decide(c, st, s.fwd, s.bwd) == CallOne(call.index, call.op)
    requires Addressable(c, rows, call)
    ensures Exec(c, s, tail) == Some(s') && s'.called == s.called + {call}
    ensures At(c, s', row, Booked(rows, call, r), AfterCall(c, st, call, r))
  {
    var s1 := ReadStep(c, s, st, call);
    s' := AnswerStep(c, s1, row, rows, st, call, r);
    ExecOne(c, s, Read(0));
    ExecOne(c, s1, Answer(0, r));
    ExecAppend(c, s, [Read(0)], [Answer(0, r)]);
    tail := [Read(0)] + [Answer(0, r)];
  }

  lemma FinishSteps(c: Config, s: State, row: GlobalStatus, st: GlobalStatus, to: GlobalStatus) returns (s': State)
    requires Worker(c, s, row, Some(Session(st, Looping)))
    requires Decide(c, st, s.fwd, s.bwd) == Finish(to)
    ensures Exec(c, s, [Read(0)]) == Some(s') && s'.called == s.called
    ensures Worker(c, s', row, Some(Session(st, Deciding(to)))) && s'.fwd == s.fwd && s'.bwd == s.bwd
  {
    ExecOne(c, s, Read(0));
    s' := Step(c, s, Read(0)).value;
  }

  lemma LeaveSteps(c: Config, s: State, row: GlobalStatus, me: Session) returns (s': State)
    requires Worker(c, s, row, Some(me))
    ensures Exec(c, s, [Leave(0)]) == Some(s') && s'.called == s.called
    ensures Worker(c, s', row, None) && s'.fwd == s.fwd && s'.bwd == s.bwd
  {
    ExecOne(c, s, Leave(0));
    s' := Step(c, s, Leave(0)).value;
  }

  // ---------- how much is left ----------

  function Count(states: seq<BranchStatus>, open: set<BranchStatus>): (n: nat)
    ensures n <= |states|
  {
    if states == [] then 0
    else Count(states[..|states| - 1], open) + if states[|states| - 1] in open then 1 else 0
  }

  lemma {:induction false} CountClosed(states: seq<BranchStatus>, open: set<BranchStatus>, i: nat, st: BranchStatus)
    requires i < |states| && states[i] in open && st !in open
    ensures Count(states[i := st], open) == Count(states, open) - 1
    decreases |states|
  {
    var m := |states| - 1;
    if i == m {
      assert states[i := st][..m] == states[..m];
    } else {
      assert states[i := st][..m] == states[..m][i := st];
      CountClosed(states[..m], open, i, st);
    }
  }

  // ---------- the saga ----------

  /** The rows a saga is created with, in any state. */
  predicate SagaTable(rows: seq<BranchRow>, n: nat) {
    && NoAlias(rows)
    && (forall k :: 0 <= k < |rows| ==> rows[k].op == Action || rows[k].op == Compensate)
    && (forall i: nat :: i < n ==> HasRow(rows, BranchId(i), Action) && HasRow(rows, BranchId(i), Compensate))
  }

  lemma SagaTableKept(rows: seq<BranchRow>, n: nat, id: string, op: BranchOp, st: BranchStatus)
    requires SagaTable(rows, n)
    ensures SagaTable(SetStatus(rows, id, op, st), n)
  {
    var rows' := SetStatus(rows, id, op, st);
    forall i: nat, o | i < n && (o == Action || o == Compensate)
      ensures HasRow(rows', BranchId(i), o)
    {
      assert HasRow(rows, BranchId(i), o);
      var k :| 0 <= k < |rows| && rows[k].id == BranchId(i) && rows[k].op == o;
      assert rows'[k].id == BranchId(i) && rows'[k].op == o;
    }
  }

  /** `saga_rows`. */
  method SagaRows(n: nat) returns (rows: seq<BranchRow>)
    ensures |rows| == 2 * n
    ensures forall i :: 0 <= i < n ==>
      rows[2 * i] == BranchRow(BranchId(i), Action, Pending) &&
        rows[2 * i + 1] == BranchRow(BranchId(i), Compensate, Pending)
    ensures SagaTable(rows, n)
  {
    rows := [];
    for i := 0 to n
      invariant |rows| == 2 * i
      invariant forall j :: 0 <= j < i ==>
        rows[2 * j] == BranchRow(BranchId(j), Action, Pending) &&
          rows[2 * j + 1] == BranchRow(BranchId(j), Compensate, Pending)
    {
      var ops := [Action, Compensate];
      for k := 0 to 2
        invariant |rows| == 2 * i + k
        invariant forall j :: 0 <= j < i ==>
          rows[2 * j] == BranchRow(BranchId(j), Action, Pending) &&
            rows[2 * j + 1] == BranchRow(BranchId(j), Compensate, Pending)
        invariant k > 0 ==> rows[2 * i] == BranchRow(BranchId(i), Action, Pending)
        invariant k > 1 ==> rows[2 * i + 1] == BranchRow(BranchId(i), Compensate, Pending)
      {
        rows := rows + [BranchRow(BranchId(i), ops[k], Pending)];
      }
    }
    FreshSagaTable(rows, n);
  }

  lemma AlternatingRows(rows: seq<BranchRow>)
    requires forall k :: 0 <= k < |rows| ==>
      rows[k] == BranchRow(BranchId(k / 2), if k % 2 == 0 then Action else Compensate, Pending)
    ensures NoAlias(rows)
  {
    forall a, b | 0 <= a < b < |rows| && rows[a].op == rows[b].op && IndexOf(rows[a].id).Some?
      ensures IndexOf(rows[a].id) != IndexOf(rows[b].id)
    {
      assert a % 2 == b % 2 && a / 2 != b / 2;
      SameIndex(a / 2, b / 2);
    }
  }

  lemma SameIndex(i: nat, j: nat)
    requires i != j && IndexOf(BranchId(i)).Some?
    ensures IndexOf(BranchId(i)) != IndexOf(BranchId(j))
  {
    IndexOfBranchId(i);
    IndexOfBranchId(j);
  }

  lemma FreshSagaTable(rows: seq<BranchRow>, n: nat)
    requires |rows| == 2 * n
    requires forall i :: 0 <= i < n ==>
      rows[2 * i] == BranchRow(BranchId(i), Action, Pending) &&
        rows[2 * i + 1] == BranchRow(BranchId(i), Compensate, Pending)
    ensures SagaTable(rows, n)
  {
    forall k | 0 <= k < |rows|
      ensures rows[k] == BranchRow(BranchId(k / 2), if k % 2 == 0 then Action else Compensate, Pending)
    {
      assert k == 2 * (k / 2) || k == 2 * (k / 2) + 1;
    }
    AlternatingRows(rows);
    forall i: nat | i < n
      ensures HasRow(rows, BranchId(i), Action) && HasRow(rows, BranchId(i), Compensate)
    {
      assert rows[2 * i].id == BranchId(i) && rows[2 * i + 1].id == BranchId(i);
    }
  }

  ghost function OpenSaga(rows: seq<BranchRow>, n: nat): nat {
    Count(Column(rows, n, FORWARD, Pending), {Pending}) + Count(Column(rows, n, BACKWARD, Pending), {Pending})
  }

  /** Some action of the saga stands as refused. */
  ghost predicate SagaRefused(rows: seq<BranchRow>, n: nat) {
    exists i :: 0 <= i < n && Column(rows, n, FORWARD, Pending)[i] == Refused
  }

  /** An acknowledged call of a pending operation refuses nothing and takes no refusal back. */
  lemma RefusedKept(rows: seq<BranchRow>, n: nat, call: Call)
    requires Addressable(PlainConfig(Saga, n), rows, call)
    requires (if call.op == Action then Column(rows, n, FORWARD, Pending)
      else Column(rows, n, BACKWARD, Pending))[call.index] == Pending
    ensures SagaRefused(Booked(rows, call, Success), n) <==> SagaRefused(rows, n)
  {
    BookedColumns(PlainConfig(Saga, n), rows, call, Success);
    var was, now := Column(rows, n, FORWARD, Pending), Column(Booked(rows, call, Success), n, FORWARD, Pending);
    assert forall i :: 0 <= i < n ==> (was[i] == Refused <==> now[i] == Refused);
  }

  lemma SagaProgress(rows: seq<BranchRow>, n: nat, call: Call, r: Reply)
    requires Addressable(PlainConfig(Saga, n), rows, call)
    requires (if call.op == Action then Column(rows, n, FORWARD, Pending)
      else Column(rows, n, BACKWARD, Pending))[call.index] == Pending
    ensures OpenSaga(rows, n) > 0
    ensures r == Success || r == Failure ==> OpenSaga(Booked(rows, call, r), n) == OpenSaga(rows, n) - 1
    ensures r != Success && r != Failure ==> Booked(rows, call, r) == rows
  {
    BookedColumns(PlainConfig(Saga, n), rows, call, r);
    var st := if r == Success then Done else Refused;
    CountClosed(if call.op == Action then Column(rows, n, FORWARD, Pending)
      else Column(rows, n, BACKWARD, Pending), {Pending}, call.index, st);
  }

  /** The next call of a saga is one the driver can address. */
  lemma SagaCallAddressable(rows: seq<BranchRow>, n: nat, status: GlobalStatus, call: Call)
    requires SagaTable(rows, n) && n <= MAX_BRANCH_INDEX + 1
    requires SagaNext(status, Column(rows, n, FORWARD, Pending), Column(rows, n, BACKWARD, Pending))
          == CallOne(call.index, call.op)
    ensures Addressable(PlainConfig(Saga, n), rows, call)
    ensures (if call.op == Action then Column(rows, n, FORWARD, Pending)
      else Column(rows, n, BACKWARD, Pending))[call.index] == Pending
  {
  }

  /** One call of a saga with what follows from its reply; `next` is the status to go on with. */
  method SagaCall(store: Store, n: nat, status: GlobalStatus, call: Call, r: Reply, lands: bool, ghost s: State)
    returns (next: Option<GlobalStatus>, ghost tail: seq<Event>, ghost s': State)
    requires n <= MAX_BRANCH_INDEX + 1 && store.tt == Saga && SagaTable(store.rows, n)
    requires status == Submitted || status == Aborting
    requires At(PlainConfig(Saga, n), s, store.status, store.rows, Some(Session(status, Looping)))
    requires Decide(PlainConfig(Saga, n), status, s.fwd, s.bwd) == CallOne(call.index, call.op)
    modifies store
    ensures SagaTable(store.rows, n)
    ensures Exec(PlainConfig(Saga, n), s, tail) == Some(s') && s'.called == s.called + {call}
    ensures At(PlainConfig(Saga, n), s', store.status, store.rows,
               if next.Some? then Some(Session(next.value, Looping)) else None)
    ensures OpenSaga(old(store.rows), n) > 0
    ensures next.Some? ==> OpenSaga(store.rows, n) == OpenSaga(old(store.rows), n) - 1
    ensures next.Some? ==> next.value == status || next.value == Aborting
    ensures r == Success ==>
      && next == Some(status) && store.status == old(store.status)
      && (SagaRefused(store.rows, n) <==> SagaRefused(old(store.rows), n))
  {
    ghost var c := PlainConfig(Saga, n);
    ghost var rows := store.rows;
    SagaCallAddressable(rows, n, status, call);
    RefusedKept(rows, n, call);
    tail, s' := CallSteps(c, s, store.status, rows, status, call, r);
    SagaTableKept(rows, n, BranchId(call.index), call.op, if r == Success then Done else Refused);
    SagaProgress(rows, n, call, r);
    match r {
      case Success =>
        store.rows := SetStatus(store.rows, BranchId(call.index), call.op, Done);
        next := Some(status);
      case Failure =>
        store.rows := SetStatus(store.rows, BranchId(call.index), call.op, Refused);
        next := None;
        if call.op == Action {
          ghost var more;
          var ok;
          ok, more, s' := Transition(store, status, Aborting, lands, c, s');
          ExecAppend(c, s, tail, more);
          tail := tail + more;
          next := if ok then Some(Aborting) else None;
        }
      case _ => next := None;
    }
  }

  lemma FinishIsRefused(rows: seq<BranchRow>, n: nat, status: GlobalStatus, to: GlobalStatus)
    requires status == Submitted || status == Aborting
    requires SagaNext(status, Column(rows, n, FORWARD, Pending), Column(rows, n, BACKWARD, Pending)) == Finish(to)
    ensures to == if status == Aborting then Failed else if SagaRefused(rows, n) then Aborting else Succeed
  {
    var first := FirstUnfinished(Column(rows, n, FORWARD, Pending));
    assert first < n && Column(rows, n, FORWARD, Pending)[first] == Refused ==> SagaRefused(rows, n);
  }

  /** The end of a saga, or the turn to its rollback. */
  method SagaFinish(store: Store, n: nat, status: GlobalStatus, to: GlobalStatus, lands: bool, ghost s: State)
    returns (next: Option<GlobalStatus>, ghost tail: seq<Event>, ghost s': State)
    requires n > 0 && store.tt == Saga
    requires status == Submitted || status == Aborting
    requires At(PlainConfig(Saga, n), s, store.status, store.rows, Some(Session(status, Looping)))
    requires Decide(PlainConfig(Saga, n), status, s.fwd, s.bwd) == Finish(to)
    modifies store`status
    ensures Exec(PlainConfig(Saga, n), s, tail) == Some(s') && s'.called == s.called
    ensures At(PlainConfig(Saga, n), s', store.status, store.rows,
               if next.Some? then Some(Session(next.value, Looping)) else None)
    ensures next.Some? ==> status == Submitted && next.value == Aborting
    ensures !lands && old(store.status) == status ==> store.status == to && (next.Some? <==> to == Aborting)
    ensures to == Succeed || to == Aborting ==> status == Submitted
    ensures to == Succeed || to == Aborting || to == Failed
    ensures status == Submitted ==> (to == Aborting <==> SagaRefused(old(store.rows), n))
  {
    FinishIsRefused(store.rows, n, status, to);

    ghost var c := PlainConfig(Saga, n);
    s' := FinishSteps(c, s, store.status, status, to);
    ghost var more;
    var ok;
    ok, more, s' := Transition(store, status, to, lands, c, s');
    ExecAppend(c, s, [Read(0)], more);
    tail := [Read(0)] + more;
    next := if ok && to == Aborting then Some(Aborting) else None;
  }

  /** Where an undisturbed round stands that will end in Succeed (forward) or in Failed. */
  predicate Outlook(next: Option<GlobalStatus>, status: GlobalStatus, refused: bool, forward: bool) {
    match next
    case None => status == if forward then Succeed else Failed
    case Some(Submitted) => status == Submitted && (forward <==> !refused)
    case Some(other) => status == other && !forward
  }

  /** One turn of the loop. */
  method SagaTurn(store: Store, n: nat, status: GlobalStatus, r: Reply, landsNow: bool, landsAfter: bool,
                  ghost s: State)
    returns (next: Option<GlobalStatus>, called: Option<Call>, ghost tail: seq<Event>, ghost s': State)
    requires 0 < n <= MAX_BRANCH_INDEX + 1 && store.tt == Saga && SagaTable(store.rows, n)
    requires status == Submitted || status == Aborting
    requires At(PlainConfig(Saga, n), s, store.status, store.rows, Some(Session(status, Looping)))
    modifies store
    ensures SagaTable(store.rows, n)
    ensures Exec(PlainConfig(Saga, n), s, tail) == Some(s')
    ensures s'.called == s.called + if called.Some? then {called.value} else {}
    ensures At(PlainConfig(Saga, n), s', store.status, store.rows,
               if next.Some? then Some(Session(next.value, Looping)) else None)
    ensures next.Some? ==> next.value == Aborting || (next.value == status && called.Some?)
    ensures next.Some? && called.None? ==>
      status == Submitted && OpenSaga(store.rows, n) == OpenSaga(old(store.rows), n)
    ensures called.Some? ==> OpenSaga(old(store.rows), n) > 0
    ensures next.Some? && called.Some? ==> OpenSaga(store.rows, n) == OpenSaga(old(store.rows), n) - 1
    ensures r == Success && !landsNow && old(store.status) == status ==>
      Outlook(next, store.status, SagaRefused(store.rows, n), status == Submitted && !SagaRefused(old(store.rows), n))
  {
    var actions, compensates := BranchStates(store.rows, n);
    var adv := SagaAdvance(status, actions, compensates);
    next, called, tail, s' := None, None, [], s;
    match adv {
      case Finish(to) => next, tail, s' := SagaFinish(store, n, status, to, landsNow, s);
      case CallOne(i, op) =>
        next, tail, s' := SagaCall(store, n, status, Call(i, op), r, landsAfter, s);
        called := Some(Call(i, op));
      case _ =>
    }
  }

  lemma OneMoreCall(calls: seq<Call>, call: Call)
    ensures (set k | k in calls + [call]) == (set k | k in calls) + {call}
  {
  }

  /** The loop over the steps; there is at least one. */
  method SagaLoop(store: Store, n: nat, answers: nat -> Reply, aborted: nat -> bool, ghost s0: State)
    returns (calls: seq<Call>, ghost events: seq<Event>, ghost s1: State)
    requires 0 < n <= MAX_BRANCH_INDEX + 1 && store.tt == Saga && SagaTable(store.rows, n)
    requires store.status == Submitted || store.status == Aborting
    requires At(PlainConfig(Saga, n), s0, store.status, store.rows, Some(Session(store.status, Looping)))
    modifies store
    ensures |calls| <= OpenSaga(old(store.rows), n)
    ensures Exec(PlainConfig(Saga, n), s0, events) == Some(s1)
    ensures At(PlainConfig(Saga, n), s1, store.status, store.rows, None)
    ensures s1.called == s0.called + set k | k in calls
    ensures (forall k :: answers(k) == Success && !aborted(k)) ==>
      store.status == if old(store.status) == Submitted && !SagaRefused(old(store.rows), n) then Succeed else Failed
  {
    ghost var c := PlainConfig(Saga, n);
    calls, events, s1 := [], [], s0;
    var next := Some(store.status);
    ghost var open, refused := OpenSaga(store.rows, n), SagaRefused(store.rows, n);
    ghost var most, forward := open, store.status == Submitted && !refused;
    ghost var smooth := forall k :: answers(k) == Success && !aborted(k);
    while next.Some?
      invariant SagaTable(store.rows, n) && open == OpenSaga(store.rows, n) && refused == SagaRefused(store.rows, n)
      invariant next.Some? ==> next.value == Submitted || next.value == Aborting
      invariant Exec(c, s0, events) == Some(s1)
      invariant At(c, s1, store.status, store.rows, if next.Some? then Some(Session(next.value, Looping)) else None)
      invariant s1.called == s0.called + set k | k in calls
      invariant |calls| + (if next.Some? then open else 0) <= most
      invariant smooth ==> Outlook(next, store.status, refused, forward)
      decreases if next.Some? then 1 + open + (if next.value == Submitted then 1 else 0) else 0
    {
      var go, called, tail, s := SagaTurn(store, n, next.value, answers(|calls|), aborted(|calls|),
        aborted(|calls| + 1), s1);
      if called.Some? {
        OneMoreCall(calls, called.value);
        calls := calls + [called.value];
      }
      ExecAppend(c, s0, events, tail);
      next, events, s1 := go, events + tail, s;
      open, refused := OpenSaga(store.rows, n), SagaRefused(store.rows, n);
    }
  }

  /** `process_saga`: `answers(k)` is the reply to the k-th call, and `aborted(k)` says whether an
      abort lands before the first status write after k calls. */
  method ProcessSaga(store: Store, n: nat, answers: nat -> Reply, aborted: nat -> bool, ghost s0: State)
    returns (calls: seq<Call>, ghost events: seq<Event>, ghost s1: State)
    requires n <= MAX_BRANCH_INDEX + 1 && store.tt == Saga && SagaTable(store.rows, n)
    requires store.status == Submitted || store.status == Aborting
    requires At(PlainConfig(Saga, n), s0, store.status, store.rows, Some(Body(PlainConfig(Saga, n), store.status)))
    modifies store
    ensures |calls| <= 2 * n
    ensures Exec(PlainConfig(Saga, n), s0, events) == Some(s1)
    ensures At(PlainConfig(Saga, n), s1, store.status, store.rows, None)
    ensures s1.called == s0.called + set k | k in calls
    ensures (forall k :: answers(k) == Success && !aborted(k)) ==>
      store.status ==
        if n == 0 || (old(store.status) == Submitted && !SagaRefused(old(store.rows), n)) then Succeed else Failed
  {
    if n == 0 {
      var _, tail, s := Transition(store, store.status, Succeed, aborted(0), PlainConfig(Saga, n), s0);
      return [], tail, s;
    }
    calls, events, s1 := SagaLoop(store, n, answers, aborted, s0);
  }

  // ---------- TCC and XA ----------

  ghost function OpenColumn(rows: seq<BranchRow>, n: nat, op: BranchOp): nat {
    Count(Column(rows, n, {op}, Pending), {Pending, Refused})
  }

  lemma TwoPhaseProgress(c: Config, rows: seq<BranchRow>, call: Call)
    requires c.tt == Tcc || c.tt == Xa
    requires Addressable(c, rows, call) && Column(rows, c.N(), {call.op}, Pending)[call.index] != Done
    ensures OpenColumn(rows, c.N(), call.op) > 0
    ensures OpenColumn(Booked(rows, call, Success), c.N(), call.op) == OpenColumn(rows, c.N(), call.op) - 1
    ensures NoAlias(Booked(rows, call, Success))
  {
    BookedColumns(c, rows, call, Success);
    CountClosed(Column(rows, c.N(), {call.op}, Pending), {Pending, Refused}, call.index, Done);
  }

  /** One call of the second phase; only Success goes on. */
  method TwoPhaseCall(store: Store, status: GlobalStatus, call: Call, r: Reply, ghost c: Config, ghost s: State)
    returns (ghost tail: seq<Event>, ghost s': State)
    requires (c.tt == Tcc || c.tt == Xa) && Addressable(c, store.rows, call)
    requires At(c, s, store.status, store.rows, Some(Session(status, Looping)))
    requires Decide(c, status, s.fwd, s.bwd) == CallOne(call.index, call.op)
    modifies store`rows
    ensures store.rows == Booked(old(store.rows), call, r)
    ensures Exec(c, s, tail) == Some(s') && s'.called == s.called + {call}
    ensures At(c, s', store.status, store.rows, if r == Success then Some(Session(status, Looping)) else None)
  {
    tail, s' := CallSteps(c, s, store.status, store.rows, status, call, r);
    match r {
      case Success => store.rows := SetStatus(store.rows, BranchId(call.index), call.op, Done);
      case Failure => store.rows := SetStatus(store.rows, BranchId(call.index), call.op, Refused);
      case _ =>
    }
  }

  /** Every branch has a row for this operation. */
  predicate GapFree(rows: seq<BranchRow>, n: nat, op: BranchOp) {
    forall i: nat :: i < n ==> HasRow(rows, BranchId(i), op)
  }

  lemma GapFreeKept(rows: seq<BranchRow>, n: nat, call: Call, st: BranchStatus)
    ensures GapFree(rows, n, call.op) ==> GapFree(SetStatus(rows, BranchId(call.index), call.op, st), n, call.op)
  {
    var rows' := SetStatus(rows, BranchId(call.index), call.op, st);
    forall i: nat | HasRow(rows, BranchId(i), call.op)
      ensures HasRow(rows', BranchId(i), call.op)
    {
      var k :| 0 <= k < |rows| && rows[k].id == BranchId(i) && rows[k].op == call.op;
      assert rows'[k].id == BranchId(i) && rows'[k].op == call.op;
    }
  }

  /** One turn of the loop: decide, look the row up, call, or finish. */
  method TwoPhaseTurn(store: Store, n: nat, status: GlobalStatus, r: Reply, aborted: bool, ghost s: State)
    returns (called: Option<Call>, goOn: bool, ghost tail: seq<Event>, ghost s': State)
    requires (store.tt == Tcc || store.tt == Xa) && NoAlias(store.rows) && n <= MAX_BRANCH_INDEX + 1
    requires status == Submitted || status == Aborting
    requires At(PlainConfig(store.tt, n), s, store.status, store.rows, Some(Session(status, Looping)))
    modifies store
    ensures Exec(PlainConfig(store.tt, n), s, tail) == Some(s')
    ensures At(PlainConfig(store.tt, n), s', store.status, store.rows,
               if goOn then Some(Session(status, Looping)) else None)
    ensures s'.called == s.called + if called.Some? then {called.value} else {}
    ensures called.Some? ==> OpenColumn(old(store.rows), n, Direction(store.tt, status)) > 0
    ensures called.Some? ==> called.value.op == Direction(store.tt, status)
    ensures goOn ==> called.Some? && NoAlias(store.rows) && store.status == old(store.status)
    ensures goOn && GapFree(old(store.rows), n, Direction(store.tt, status)) ==>
      GapFree(store.rows, n, Direction(store.tt, status))
    ensures !goOn && r == Success && !aborted && old(store.status) == status &&
      GapFree(old(store.rows), n, Direction(store.tt, status))
      ==> store.status == if status == Submitted then Succeed else Failed
    ensures goOn ==>
      OpenColumn(store.rows, n, Direction(store.tt, status))
      == OpenColumn(old(store.rows), n, Direction(store.tt, status)) - 1
  {
    ghost var c := PlainConfig(store.tt, n);
    var fwd, bwd := Direction(store.tt, Submitted), Direction(store.tt, Aborting);
    var f, b := SplitByOps(store.rows, n, {fwd}, {bwd});
    var adv := TwoPhaseAdvance(status, f, b, fwd, bwd);
    called, goOn, tail, s' := None, false, [], s;
    match adv {
      case Finish(to) =>
        s' := FinishSteps(c, s, store.status, status, to);
        ghost var more;
        var ok;
        ok, more, s' := Transition(store, status, to, aborted, c, s');
        ExecAppend(c, s, [Read(0)], more);
        tail := [Read(0)] + more;
      case CallOne(i, op) =>
        if HasRow(store.rows, BranchId(i), op) {
          TwoPhaseProgress(c, store.rows, Call(i, op));
          GapFreeKept(store.rows, n, Call(i, op), Done);
          called, goOn := Some(Call(i, op)), r == Success;
          tail, s' := TwoPhaseCall(store, status, Call(i, op), r, c, s);
        } else {
          s' := LeaveSteps(c, s, store.status, Session(status, Looping));
          tail := [Leave(0)];
        }
      case _ =>
    }
  }

  /** The operation that a TCC or XA transaction in this status calls. */
  function Direction(tt: TransType, status: GlobalStatus): BranchOp {
    if tt == Tcc then if status == Submitted then Confirm else Cancel
    else if status == Submitted then Commit else BranchOp.Rollback
  }

  /** `drive_two_phase`. Rows whose number cannot be read do not make the transaction look empty,
      and an operation without a row stops the round. */
  method DriveTwoPhase(store: Store, answers: nat -> Reply, aborted: bool, ghost s0: State)
    returns (calls: seq<Call>, ghost events: seq<Event>, ghost s1: State)
    requires (store.tt == Tcc || store.tt == Xa) && NoAlias(store.rows)
    requires store.status == Submitted || store.status == Aborting
    requires var c := PlainConfig(store.tt, Highest(store.rows, ALL_OPS));
             At(c, s0, store.status, store.rows, Some(Body(c, store.status)))
    modifies store
    ensures |calls| <= Highest(old(store.rows), ALL_OPS)
    ensures
      var c := PlainConfig(store.tt, Highest(old(store.rows), ALL_OPS));
      && Exec(c, s0, events) == Some(s1)
      && At(c, s1, store.status, store.rows, None)
      && s1.called == s0.called + set k | k in calls
    ensures Highest(old(store.rows), ALL_OPS) == 0 && old(store.rows) != [] ==> store.status == old(store.status)
    ensures store.tt == Tcc && old(store.status) == Submitted ==> forall k :: 0 <= k < |calls| ==>
      calls[k].op == Confirm
    ensures store.tt == Tcc && old(store.status) == Aborting ==> forall k :: 0 <= k < |calls| ==> calls[k].op == Cancel
    ensures store.tt == Xa && old(store.status) == Submitted ==> forall k :: 0 <= k < |calls| ==> calls[k].op == Commit
    ensures store.tt == Xa && old(store.status) == Aborting ==>
      forall k :: 0 <= k < |calls| ==> calls[k].op == BranchOp.Rollback
    ensures
      var n := Highest(old(store.rows), ALL_OPS);
      (forall k :: answers(k) == Success) && !aborted && (n > 0 || old(store.rows) == []) &&
        GapFree(old(store.rows), n, Direction(store.tt, old(store.status)))
      ==> store.status == if old(store.status) == Submitted then Succeed else Failed
  {
    var n := MaxIndex(store.rows, ALL_OPS);
    ghost var c := PlainConfig(store.tt, n);
    var status := store.status;
    calls, events, s1 := [], [], s0;
    if n == 0 {
      if store.rows != [] {
        s1 := LeaveSteps(c, s0, store.status, Body(c, status));
        events := [Leave(0)];
      } else {
        var _, tail, s := Transition(store, status, if status == Aborting then Failed else Succeed, aborted, c, s0);
        events, s1 := tail, s;
      }
      return;
    }
    var running := true;
    ghost var open := OpenColumn(store.rows, n, Direction(store.tt, status));
    ghost var smooth := (forall k :: answers(k) == Success) && !aborted &&
      GapFree(store.rows, n, Direction(store.tt, status));
    while running
      invariant running ==> NoAlias(store.rows)
      invariant Exec(c, s0, events) == Some(s1)
      invariant At(c, s1, store.status, store.rows, if running then Some(Session(status, Looping)) else None)
      invariant s1.called == s0.called + set k | k in calls
      invariant forall k :: 0 <= k < |calls| ==> calls[k].op == Direction(store.tt, status)
      invariant smooth && running ==> store.status == status && GapFree(store.rows, n, Direction(store.tt, status))
      invariant smooth && !running ==> store.status == if status == Submitted then Succeed else Failed
      invariant running ==> open == OpenColumn(store.rows, n, Direction(store.tt, status))
      invariant |calls| + (if running then open else 0) <= n
      decreases if running then 1 + open else 0
    {
      var called, goOn, tail, s := TwoPhaseTurn(store, n, status, answers(|calls|), aborted, s1);
      if called.Some? {
        OneMoreCall(calls, called.value);
        calls := calls + [called.value];
      }
      ExecAppend(c, s0, events, tail);
      events, s1, running, open := events + tail, s, goOn, open - if goOn then 1 else 0;
    }
  }
}
