/** What an UPDATE ... SET list means. Postgres and sqlite evaluate every right-hand side on the
    old row; MySQL evaluates from left to right and later expressions see earlier assignments.
    The two agree on every list in which no expression reads a column assigned before it. All
    statements on a global transaction are written that way, and mean the row operations of Rows. */
module Updates {
  import opened Types
  import Rows

  datatype Column = Status | RetryCount | Interval | NextCron | LeaseUntil | Owner | Reason | UpdateTime

  datatype Val = Num(n: int) | Text(s: string) | Stat(st: GlobalStatus)

  type Values = map<Column, Val>

  datatype Expr =
    | Lit(value: Val)
    | Read(col: Column)
    | Plus(left: Expr, right: Expr)
    | CaseLess(a: Expr, b: Expr, yes: Expr, no: Expr)
    | CaseText(t: Expr, yes: Expr, no: Expr)         // CASE WHEN t <> '' THEN yes ELSE no END

  datatype Assign = Assign(col: Column, e: Expr)

  function Int(v: Val): int {
    match v
    case Num(n) => n
    case _ => 0
  }

  function Eval(e: Expr, v: Values): Val {
    match e
    case Lit(x) => x
    case Read(c) => if c in v then v[c] else Num(0)
    case Plus(l, r) => Num(Int(Eval(l, v)) + Int(Eval(r, v)))
    case CaseLess(a, b, yes, no) => if Int(Eval(a, v)) < Int(Eval(b, v)) then Eval(yes, v) else Eval(no, v)
    case CaseText(t, yes, no) => if Eval(t, v) != Text("") then Eval(yes, v) else Eval(no, v)
  }

  function Reads(e: Expr): set<Column> {
    match e
    case Lit(_) => {}
    case Read(c) => {c}
    case Plus(l, r) => Reads(l) + Reads(r)
    case CaseLess(a, b, yes, no) => Reads(a) + Reads(b) + Reads(yes) + Reads(no)
    case CaseText(t, yes, no) => Reads(t) + Reads(yes) + Reads(no)
  }

  /** MySQL. */
  function LeftToRight(v: Values, sets: seq<Assign>): Values
    decreases |sets|
  {
    if sets == [] then v else LeftToRight(v[sets[0].col := Eval(sets[0].e, v)], sets[1..])
  }

  /** Postgres and sqlite: right-hand sides on `old`, results written over `v`. */
  function SimultaneousOver(orig: Values, v: Values, sets: seq<Assign>): Values
    decreases |sets|
  {
    if sets == [] then v else SimultaneousOver(orig, v[sets[0].col := Eval(sets[0].e, orig)], sets[1..])
  }

  function Simultaneous(v: Values, sets: seq<Assign>): Values {
    SimultaneousOver(v, v, sets)
  }

  /** No expression reads a column that an earlier assignment has written. */
  predicate ReadsBeforeWrites(sets: seq<Assign>) {
    forall i, j :: 0 <= i < j < |sets| ==> sets[i].col !in Reads(sets[j].e)
  }

  predicate AgreeOn(v: Values, w: Values, c: Column) {
    (c in v <==> c in w) && (c in v ==> v[c] == w[c])
  }

  lemma {:induction false} EvalAgrees(e: Expr, v: Values, w: Values)
    requires forall c :: c in Reads(e) ==> AgreeOn(v, w, c)
    ensures Eval(e, v) == Eval(e, w)
  {
    match e {
      case Lit(_) =>
      case Read(c) => assert AgreeOn(v, w, c);
      case Plus(l, r) =>
        EvalAgrees(l, v, w);
        EvalAgrees(r, v, w);
      case CaseLess(a, b, yes, no) =>
        EvalAgrees(a, v, w);
        EvalAgrees(b, v, w);
        EvalAgrees(yes, v, w);
        EvalAgrees(no, v, w);
      case CaseText(t, yes, no) =>
        EvalAgrees(t, v, w);
        EvalAgrees(yes, v, w);
        EvalAgrees(no, v, w);
    }
  }

  lemma {:induction false} OrderDoesNotMatterFrom(orig: Values, v: Values, sets: seq<Assign>)
    requires ReadsBeforeWrites(sets)
    requires forall j, c :: 0 <= j < |sets| && c in Reads(sets[j].e) ==> AgreeOn(orig, v, c)
    ensures LeftToRight(v, sets) == SimultaneousOver(orig, v, sets)
    decreases |sets|
  {
    if sets != [] {
      EvalAgrees(sets[0].e, orig, v);
      var v' := v[sets[0].col := Eval(sets[0].e, v)];
      forall j, c | 0 <= j < |sets[1..]| && c in Reads(sets[1..][j].e)
        ensures AgreeOn(orig, v', c)
      {
        assert sets[1..][j] == sets[j + 1];
        assert AgreeOn(orig, v, c);
      }
      OrderDoesNotMatterFrom(orig, v', sets[1..]);
    }
  }

  /** All three databases agree on every list that reads before it writes. */
  lemma OrderDoesNotMatter(v: Values, sets: seq<Assign>)
    requires ReadsBeforeWrites(sets)
    ensures LeftToRight(v, sets) == Simultaneous(v, sets)
  {
    OrderDoesNotMatterFrom(v, v, sets);
  }

  // ---------- the statements on a global transaction ----------

  function ValuesOf(r: Rows.Row, updateTime: int): Values {
    map[Status := Stat(r.status), RetryCount := Num(r.retryCount), Interval := Num(r.interval),
        NextCron := Num(r.nextCron), LeaseUntil := Num(r.leaseUntil), Owner := Text(r.owner), Reason := Text(r.reason),
        UpdateTime := Num(updateTime)]
  }

  /** Under both semantics the list turns one row into the other. */
  ghost predicate Means(sets: seq<Assign>, r: Rows.Row, updateTime: int, r': Rows.Row, updateTime': int) {
    && LeftToRight(ValuesOf(r, updateTime), sets) == ValuesOf(r', updateTime')
    && Simultaneous(ValuesOf(r, updateTime), sets) == ValuesOf(r', updateTime')
  }

  lemma First(v: Values, a: Assign, rest: seq<Assign>)
    ensures LeftToRight(v, [a] + rest) == LeftToRight(v[a.col := Eval(a.e, v)], rest)
  {
    assert ([a] + rest)[1..] == rest;
  }

  /** Six assignments, one after the other. */
  lemma LeftToRightSix(v: Values, sets: seq<Assign>)
    requires |sets| == 6
    ensures
      var v1 := v[sets[0].col := Eval(sets[0].e, v)];
      var v2 := v1[sets[1].col := Eval(sets[1].e, v1)];
      var v3 := v2[sets[2].col := Eval(sets[2].e, v2)];
      var v4 := v3[sets[3].col := Eval(sets[3].e, v3)];
      var v5 := v4[sets[4].col := Eval(sets[4].e, v4)];
      LeftToRight(v, sets) == v5[sets[5].col := Eval(sets[5].e, v5)]
  {
    var v1 := v[sets[0].col := Eval(sets[0].e, v)];
    First(v, sets[0], sets[1..]);
    assert sets == [sets[0]] + sets[1..];
    LeftToRightFive(v1, sets[1..]);
  }

  lemma LeftToRightFive(v: Values, sets: seq<Assign>)
    requires |sets| == 5
    ensures
      var v1 := v[sets[0].col := Eval(sets[0].e, v)];
      var v2 := v1[sets[1].col := Eval(sets[1].e, v1)];
      var v3 := v2[sets[2].col := Eval(sets[2].e, v2)];
      var v4 := v3[sets[3].col := Eval(sets[3].e, v3)];
      LeftToRight(v, sets) == v4[sets[4].col := Eval(sets[4].e, v4)]
  {
    var v1 := v[sets[0].col := Eval(sets[0].e, v)];
    var v2 := v1[sets[1].col := Eval(sets[1].e, v1)];
    First(v, sets[0], sets[1..]);
    First(v1, sets[1], sets[2..]);
    assert sets == [sets[0]] + sets[1..] && sets[1..] == [sets[1]] + sets[2..];
    LeftToRightThree(v2, sets[2..]);
  }

  lemma LeftToRightThree(v: Values, sets: seq<Assign>)
    requires |sets| == 3
    ensures
      var v1 := v[sets[0].col := Eval(sets[0].e, v)];
      var v2 := v1[sets[1].col := Eval(sets[1].e, v1)];
      LeftToRight(v, sets) == v2[sets[2].col := Eval(sets[2].e, v2)]
  {
    var v1 := v[sets[0].col := Eval(sets[0].e, v)];
    var v2 := v1[sets[1].col := Eval(sets[1].e, v1)];
    First(v, sets[0], sets[1..]);
    First(v1, sets[1], sets[2..]);
    First(v2, sets[2], []);
    assert sets == [sets[0]] + sets[1..] && sets[1..] == [sets[1]] + sets[2..] && sets[2..] == [sets[2]] + [];
  }

  /** The SET list of `release_lease`, with its parameters filled in. */
  function ReleaseList(interval: int, now: int): seq<Assign> {
    [Assign(RetryCount, Plus(Read(RetryCount), Lit(Num(if interval > 0 then 1 else 0)))),
     Assign(Interval, CaseLess(Read(NextCron), Read(LeaseUntil), Lit(Num(0)), Lit(Num(interval)))),
     Assign(NextCron, CaseLess(Read(NextCron), Read(LeaseUntil), Read(NextCron), Lit(Num(now + interval)))),
     Assign(UpdateTime, Lit(Num(now))),
     Assign(LeaseUntil, Lit(Num(0)))]
  }

  /** On every database the statement does what `Release` says. */
  lemma ReleaseListMeansRelease(r: Rows.Row, interval: int, now: int, updateTime: int)
    ensures Means(ReleaseList(interval, now), r, updateTime, Rows.Release(r, r.leaseUntil, interval, now), now)
  {
    var sets, v := ReleaseList(interval, now), ValuesOf(r, updateTime);
    forall i, j | 0 <= i < j < |sets|
      ensures sets[i].col !in Reads(sets[j].e)
    {
    }
    OrderDoesNotMatter(v, sets);
    LeftToRightFive(v, sets);
  }

  /** And of `lock_one_due`. */
  function LockList(owner: string, now: int, lease: int): seq<Assign> {
    [Assign(Owner, Lit(Text(owner))), Assign(NextCron, Lit(Num(now + lease))),
      Assign(LeaseUntil, Lit(Num(now + lease))),
     Assign(UpdateTime, Lit(Num(now)))]
  }

  lemma LockListMeansLock(r: Rows.Row, owner: string, now: int, lease: int, updateTime: int)
    ensures Means(LockList(owner, now, lease), r, updateTime, Rows.Lock(r, owner, now, lease), now)
  {
    var sets, v := LockList(owner, now, lease), ValuesOf(r, updateTime);
    OrderDoesNotMatter(v, sets);
    First(v, sets[0], sets[1..]);
    assert sets == [sets[0]] + sets[1..];
    LeftToRightThree(v[Owner := Text(owner)], sets[1..]);
  }

  /** And of `submit_prepared`. */
  function SubmitList(owner: string, nextCron: int, now: int): seq<Assign> {
    [Assign(Status, Lit(Stat(Submitted))), Assign(UpdateTime, Lit(Num(now))), Assign(NextCron, Lit(Num(nextCron))),
     Assign(Interval, Lit(Num(0))), Assign(Owner, Lit(Text(owner))),
     Assign(LeaseUntil, Lit(Num(if owner == "" then 0 else nextCron)))]
  }

  lemma SubmitListMeansSubmit(r: Rows.Row, owner: string, nextCron: int, now: int, updateTime: int)
    ensures Means(SubmitList(owner, nextCron, now), r, updateTime, Rows.SubmitRow(r, owner, nextCron), now)
  {
    var sets, v := SubmitList(owner, nextCron, now), ValuesOf(r, updateTime);
    OrderDoesNotMatter(v, sets);
    LeftToRightSix(v, sets);
  }

  /** And of `transition` and `set_global_status`: a reason is only overwritten by another. */
  function StatusList(to: GlobalStatus, reason: string, now: int): seq<Assign> {
    [Assign(Status, Lit(Stat(to))), Assign(UpdateTime, Lit(Num(now))),
     Assign(Reason, CaseText(Lit(Text(reason)), Lit(Text(reason)), Read(Reason)))]
  }

  lemma StatusListMeansSetStatus(r: Rows.Row, to: GlobalStatus, reason: string, now: int, updateTime: int)
    ensures Means(StatusList(to, reason, now), r, updateTime, Rows.SetStatus(r, to, reason), now)
  {
    var sets, v := StatusList(to, reason, now), ValuesOf(r, updateTime);
    forall i, j | 0 <= i < j < |sets|
      ensures sets[i].col !in Reads(sets[j].e)
    {
    }
    OrderDoesNotMatter(v, sets);
    LeftToRightThree(v, sets);
  }

  /** And of `schedule_retry`; `schedule_now` leaves the update time alone. */
  function RetryList(interval: int, now: int): seq<Assign> {
    [Assign(Interval, Lit(Num(interval))), Assign(NextCron, Lit(Num(now + interval))),
      Assign(UpdateTime, Lit(Num(now)))]
  }

  function WakeList(now: int): seq<Assign> {
    [Assign(NextCron, Lit(Num(now))), Assign(Interval, Lit(Num(0)))]
  }

  lemma ScheduleListsMeanSchedules(r: Rows.Row, interval: int, now: int, updateTime: int)
    ensures Means(RetryList(interval, now), r, updateTime, Rows.ScheduleRetry(r, interval, now), now)
    ensures Means(WakeList(now), r, updateTime, Rows.ScheduleNow(r, now), updateTime)
  {
    var retry, wake, v := RetryList(interval, now), WakeList(now), ValuesOf(r, updateTime);
    OrderDoesNotMatter(v, retry);
    LeftToRightThree(v, retry);
    OrderDoesNotMatter(v, wake);
    First(v, wake[0], wake[1..]);
    First(v[NextCron := Num(now)], wake[1], []);
    assert wake == [wake[0]] + wake[1..] && wake[1..] == [wake[1]] + [];
  }

  /** Clearing the lease first would lose every wake-up, but only on MySQL. */
  lemma ClearingLeaseFirstDiffers()
    ensures
      var sets := [Assign(LeaseUntil, Lit(Num(0))),
                   Assign(NextCron, CaseLess(Read(NextCron), Read(LeaseUntil), Read(NextCron), Lit(Num(100))))];
      var v := map[NextCron := Num(5), LeaseUntil := Num(30)];
      && LeftToRight(v, sets) == map[NextCron := Num(100), LeaseUntil := Num(0)]
      && Simultaneous(v, sets) == map[NextCron := Num(5), LeaseUntil := Num(0)]
  {
    var sets := [Assign(LeaseUntil, Lit(Num(0))),
                 Assign(NextCron, CaseLess(Read(NextCron), Read(LeaseUntil), Read(NextCron), Lit(Num(100))))];
    var v := map[NextCron := Num(5), LeaseUntil := Num(30)];
    var v1 := v[LeaseUntil := Num(0)];
    assert sets[1..][0] == sets[1] && sets[1..][1..] == [];
    assert Eval(sets[1].e, v1) == Num(100) && Eval(sets[1].e, v) == Num(5);
    assert LeftToRight(v, sets) == LeftToRight(v1, sets[1..]);
    assert LeftToRight(v1, sets[1..]) == LeftToRight(v1[NextCron := Num(100)], []);
    assert SimultaneousOver(v, v, sets) == SimultaneousOver(v, v1, sets[1..]);
    assert SimultaneousOver(v, v1, sets[1..]) == SimultaneousOver(v, v1[NextCron := Num(5)], []);
  }
}
