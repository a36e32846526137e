/** Leases and scheduling of one row, on a clock that only moves forward. Workers lock the row when
    it is due, hold it for as long as they like, change its status, and release it or never do;
    callers wake, abort and submit it at any time. A session that is never released stays in the
    state for ever, which is what a crashed or stuck worker looks like from outside. */
module Leases {
  import opened Types
  import Rows

  // ---------- backoff ----------

  datatype RetryPolicy = RetryPolicy(initial: int, max: int) {
    /** What reading the environment always yields: both positive, the cap not below the start. */
    predicate Valid() {
      1 <= initial <= max
    }
  }

  function NextInterval(cur: int, p: RetryPolicy): int {
    if cur <= 0 then p.initial else if cur * 2 < p.max then cur * 2 else p.max
  }

  /** Backoff is positive, never exceeds the cap, and never shrinks below where it was. */
  lemma BackoffWithinPolicy(cur: int, p: RetryPolicy)
    requires p.Valid()
    ensures 1 <= NextInterval(cur, p) <= p.max
    ensures cur <= p.max ==> cur <= NextInterval(cur, p)
  {
  }

  /** The interval after n rounds in a row that had to be retried. */
  function BackoffAfter(n: nat, p: RetryPolicy): int {
    if n == 0 then 0 else NextInterval(BackoffAfter(n - 1, p), p)
  }

  function Power2(n: nat): (r: nat)
    ensures r >= 1
  {
    if n == 0 then 1 else 2 * Power2(n - 1)
  }

  /** It starts at the initial interval and doubles, up to the cap. */
  lemma {:induction false} BackoffDoubles(n: nat, p: RetryPolicy)
    requires p.Valid()
    ensures BackoffAfter(n + 1, p) == if p.initial * Power2(n) < p.max then p.initial * Power2(n) else p.max
  {
    if n == 0 {
      assert BackoffAfter(0, p) == 0 && p.initial * Power2(0) == p.initial;
    } else {
      BackoffDoubles(n - 1, p);
      assert p.initial * Power2(n) == 2 * (p.initial * Power2(n - 1));
      BackoffWithinPolicy(BackoffAfter(n, p), p);
    }
  }

  // ---------- state ----------

  /** `deadline` is where a prepared row is first scheduled; `claimed` is the lease the submitter of
      a saga takes along when it creates the row (0: none). With `abortAtomic`, the status write and
      the wake-up of an abort are one step; otherwise the caller may die in between. */
  datatype Config = Config(
    backend: Backend, tt: TransType, created: GlobalStatus, start: nat, deadline: nat,
    maxLease: nat, retry: RetryPolicy, claimed: nat, abortAtomic: bool)
  {
    predicate Valid() {
      && 1 <= maxLease && retry.Valid() && start <= deadline && claimed <= maxLease
      && ((created == Submitted && (tt == Saga || tt == Workflow))
          || (created == Prepared && (tt == Msg || tt == Tcc || tt == Xa) && claimed == 0))
    }

    /** The longest that anybody pushes a running row into the future. */
    function Horizon(): int {
      if maxLease > retry.max then maxLease else retry.max
    }
  }

  /** `status` is what the worker believes, `token` the end of the lease it was given, and `interval`
      the row's backoff when it was given. */
  datatype Session = Session(token: int, status: GlobalStatus, interval: int)

  datatype Holder = Holder(w: nat, token: int)

  /** `latest` is the last session that was given a lease, and `asked` the last wake-up since then. */
  datatype State = State(
    now: int,
    row: Rows.Row,
    sessions: map<nat, Session>,
    latest: Option<Holder>,
    asked: Option<int>)

  function Init(c: Config): State {
    var row := Rows.Row(c.tt, c.created, c.start, 0, "", 0, 0, "");
    if c.created == Prepared then State(c.start, row.(nextCron := c.deadline), map[], None, None)
    else if c.claimed == 0 then State(c.start, row, map[], None, None)
    else
      var token := c.start + c.claimed;
      State(c.start, row.(nextCron := token, leaseUntil := token),
            map[0 := Session(token, Submitted, 0)], Some(Holder(0, token)), None)
  }

  datatype Event =
    | Tick(d: nat)
    | Take(w: nat, lease: nat)
    | Give(w: nat, interval: nat)
    | Move(w: nat, to: GlobalStatus)
    | Wake
    | Abort
    | AbortOnly
    | Submit(w: nat, lease: nat)     // lease 0: the submitter does not take the row along

  predicate TwoPhase(tt: TransType) {
    tt == Tcc || tt == Xa
  }

  /** Status changes a worker attempts; a TCC or XA row times out only at its deadline. */
  predicate MoveAllowed(c: Config, now: int, from: GlobalStatus, to: GlobalStatus) {
    match from
    case Prepared => (TwoPhase(c.tt) && to == Aborting && now >= c.deadline)
                     || (c.tt == Msg && (to == Submitted || to == Failed))
    case Submitted => to == Succeed || (to == Aborting && (c.tt == Saga || c.tt == Workflow))
    case Aborting => to == Failed
    case _ => false
  }

  /** Intervals a worker releases with: 0 after a lost comparison, the next backoff, or, holding a
      prepared TCC or XA row before its deadline, what was left until the deadline at some earlier
      moment. */
  predicate IntervalAllowed(c: Config, held: Session, interval: nat) {
    || interval == 0
    || (interval == NextInterval(held.interval, c.retry) && !(TwoPhase(c.tt) && held.status == Prepared))
    || (TwoPhase(c.tt) && held.status == Prepared && (interval == 1 || interval <= c.deadline - c.start))
  }

  function StepTake(s: State, w: nat, lease: nat): State {
    var token := s.now + lease;
    s.(row := Rows.Lock(s.row, "worker", s.now, lease),
       sessions := s.sessions[w := Session(token, s.row.status, s.row.interval)],
       latest := Some(Holder(w, token)), asked := None)
  }

  function StepGive(s: State, w: nat, interval: nat): State
    requires w in s.sessions
  {
    s.(row := Rows.Release(s.row, s.sessions[w].token, interval, s.now), sessions := s.sessions - {w})
  }

  function StepWake(s: State): State {
    s.(row := Rows.ScheduleNow(s.row, s.now), asked := Some(s.now))
  }

  function StepAbort(s: State): State {
    s.(row := Rows.SetStatus(s.row, Aborting, ""))
  }

  /** On SQL the submitter that takes the row along is handed the backoff it had; the row has none. */
  function StepSubmit(c: Config, s: State, w: nat, lease: nat): State {
    if lease == 0 then s.(row := Rows.SubmitRow(s.row, "", s.now), asked := None)
    else
      var token := s.now + lease;
      s.(row := Rows.SubmitRow(s.row, "submitter", token), asked := None,
         sessions := s.sessions[w := Session(token, Submitted, if c.backend == SqlBackend then s.row.interval else 0)],
         latest := Some(Holder(w, token)))
  }

  function Step(c: Config, s: State, e: Event): Option<State> {
    match e
    case Tick(d) => Some(s.(now := s.now + d))
    case Take(w, lease) =>
      if w in s.sessions || !(1 <= lease <= c.maxLease) || !Rows.Due(s.row, s.now) then None
      else Some(StepTake(s, w, lease))
    case Give(w, interval) =>
      if w !in s.sessions || !IntervalAllowed(c, s.sessions[w], interval) then None
      else Some(StepGive(s, w, interval))
    case Move(w, to) =>
      if w !in s.sessions || s.row.status != s.sessions[w].status || !MoveAllowed(c, s.now, s.row.status, to) then None
      else Some(s.(row := Rows.SetStatus(s.row, to, ""), sessions := s.sessions[w := s.sessions[w].(status := to)]))
    case Wake => Some(StepWake(s))
    case Abort => if AbortGuard(s.row.status, c.tt) != TryWrite then None else Some(StepWake(StepAbort(s)))
    case AbortOnly =>
      if c.abortAtomic || AbortGuard(s.row.status, c.tt) != TryWrite then None else Some(StepAbort(s))
    case Submit(w, lease) =>
      if w in s.sessions || lease > c.maxLease then None
      else if s.row.status != Prepared then Some(s)
      else Some(StepSubmit(c, s, w, lease))
  }

  function Exec(c: Config, s: State, events: seq<Event>): Option<State>
    decreases |events|
  {
    if events == [] then Some(s)
    else
      match Step(c, s, events[0])
      case None => None
      case Some(s') => Exec(c, s', events[1..])
  }

  ghost predicate Reachable(c: Config, s: State) {
    exists events :: Exec(c, Init(c), events) == Some(s)
  }

  lemma {:induction false} ExecSnoc(c: Config, s: State, events: seq<Event>, e: Event)
    requires Exec(c, s, events).Some?
    ensures Exec(c, s, events + [e]) == Step(c, Exec(c, s, events).value, e)
    decreases |events|
  {
    if events == [] {
      assert ([] + [e])[1..] == [];
    } else {
      assert (events + [e])[1..] == events[1..] + [e];
      ExecSnoc(c, Step(c, s, events[0]).value, events[1..], e);
    }
  }

  lemma Then(c: Config, s: State, e: Event) returns (s': State)
    requires Reachable(c, s) && Step(c, s, e).Some?
    ensures Reachable(c, s') && Step(c, s, e) == Some(s')
  {
    var events :| Exec(c, Init(c), events) == Some(s);
    ExecSnoc(c, Init(c), events, e);
    s' := Step(c, s, e).value;
    assert Exec(c, Init(c), events + [e]) == Some(s');
  }

  // ---------- wake-ups ----------

  /** While a lease is on the row, the next schedule tells whether somebody has asked since. */
  predicate WakeInv(s: State) {
    && (s.row.leaseUntil != 0 ==>
          s.row.nextCron == match s.asked case None => s.row.leaseUntil case Some(at) => at)
    && s.now >= 0
    && forall w :: w in s.sessions ==> s.sessions[w].token >= 1
  }

  lemma {:induction false} ExecWakeInv(c: Config, s: State, events: seq<Event>)
    requires c.Valid() && WakeInv(s)
    ensures Exec(c, s, events).Some? ==> WakeInv(Exec(c, s, events).value)
    decreases |events|
  {
    if events != [] && Step(c, s, events[0]).Some? {
      ExecWakeInv(c, Step(c, s, events[0]).value, events[1..]);
    }
  }

  /** In every run: when a session releases the lease that is on the row, a wake-up that came since
      it was given survives exactly when it came before the lease had expired. Then the row is due
      at the moment of that request with the backoff cleared, whatever backoff the worker asked
      for; otherwise the row is scheduled by the backoff. */
  lemma WakeUpKept(c: Config, s: State, w: nat, interval: nat)
    requires c.Valid() && Reachable(c, s)
    requires w in s.sessions && s.row.leaseUntil == s.sessions[w].token
    ensures
      var row := StepGive(s, w, interval).row;
      && row.leaseUntil == 0
      && (if s.asked.Some? && s.asked.value < s.row.leaseUntil
          then row.nextCron == s.asked.value && row.interval == 0
          else row.nextCron == s.now + interval && row.interval == interval)
  {
    var events :| Exec(c, Init(c), events) == Some(s);
    ExecWakeInv(c, Init(c), events);
  }

  // ---------- exclusion ----------

  /** At most one session holds a lease that has not expired. */
  predicate Exclusive(s: State) {
    forall v, w :: v in s.sessions && w in s.sessions && s.sessions[v].token > s.now && s.sessions[w].token > s.now ==>
      v == w
  }

  predicate LeaseInv(s: State) {
    && s.now >= 0 && s.row.status != Prepared
    && Exclusive(s)
    && (forall w :: w in s.sessions && s.sessions[w].token > s.now ==> s.row.leaseUntil == s.sessions[w].token)
    && (forall w :: w in s.sessions ==> s.sessions[w].token >= 1)
    && match s.latest
       case None => s.sessions == map[] && s.row.leaseUntil == 0
       case Some(h) =>
         && (s.row.leaseUntil == 0 || s.row.leaseUntil == h.token)
         && (forall w :: w in s.sessions ==>
               if w == h.w then s.sessions[w].token == h.token
               else s.sessions[w].token < h.token && s.sessions[w].token <= s.now)
         && (s.row.leaseUntil == h.token ==> h.w in s.sessions)
  }

  lemma LeaseStep(c: Config, s: State, e: Event)
    requires c.Valid() && LeaseInv(s)
    ensures Step(c, s, e).Some? ==> LeaseInv(Step(c, s, e).value)
  {
    match e {
      case Take(w, lease) =>
        if Step(c, s, e).Some? {
          TakeKeeps(s, w, lease);
        }
      case Give(w, interval) =>
        if Step(c, s, e).Some? {
          GiveKeeps(s, w, interval);
        }
      case Move(w, to) =>
        if Step(c, s, e).Some? {
          MoveKeeps(s, w, to);
        }
      case _ =>
    }
  }

  lemma MoveKeeps(s: State, w: nat, to: GlobalStatus)
    requires LeaseInv(s) && w in s.sessions && to != Prepared
    ensures LeaseInv(s.(row := Rows.SetStatus(s.row, to, ""),
      sessions := s.sessions[w := s.sessions[w].(status := to)]))
  {
  }

  lemma GiveKeeps(s: State, w: nat, interval: nat)
    requires LeaseInv(s) && w in s.sessions
    ensures LeaseInv(StepGive(s, w, interval))
  {
    var s' := StepGive(s, w, interval);
    assert s'.sessions == s.sessions - {w};
  }

  lemma TakeKeeps(s: State, w: nat, lease: nat)
    requires LeaseInv(s) && w !in s.sessions && lease >= 1 && Rows.Due(s.row, s.now)
    ensures LeaseInv(StepTake(s, w, lease))
  {
    var s' := StepTake(s, w, lease);
    forall v | v in s.sessions
      ensures s.sessions[v].token <= s.now && v != w
    {
    }
    assert s'.sessions[w].token == s.now + lease;
  }

  lemma {:induction false} ExecLeaseInv(c: Config, s: State, events: seq<Event>)
    requires c.Valid() && LeaseInv(s)
    ensures Exec(c, s, events).Some? ==> LeaseInv(Exec(c, s, events).value)
    decreases |events|
  {
    if events != [] {
      LeaseStep(c, s, events[0]);
      if Step(c, s, events[0]).Some? {
        ExecLeaseInv(c, Step(c, s, events[0]).value, events[1..]);
      }
    }
  }

  ghost predicate AlwaysExclusive(c: Config) {
    forall s :: Reachable(c, s) ==> Exclusive(s)
  }

  /** A prepared row is locked, then submitted: submit clears the lease, and the row can be locked
      a second time although the first lease is still running. */
  lemma SubmitFreesLease(c: Config) returns (s: State)
    requires c.Valid() && c.created == Prepared
    ensures Reachable(c, s) && s.now == c.start && s.row.status == Submitted
    ensures s.row.leaseUntil == c.start + c.maxLease && s.row.nextCron == s.row.leaseUntil
    ensures s.sessions == map[0 := Session(c.start + c.maxLease, Prepared, 0),
      1 := Session(c.start + c.maxLease, Submitted, 0)]
  {
    assert Exec(c, Init(c), []) == Some(Init(c));
    s := Then(c, Init(c), Wake);
    s := Then(c, s, Take(0, c.maxLease));
    s := Then(c, s, Submit(1, 0));
    s := Then(c, s, Take(1, c.maxLease));
  }

  /** Over every interleaving, at most one unreleased session holds an unexpired lease, exactly for
      the rows that are created submitted. */
  lemma ExclusiveExactly(c: Config)
    requires c.Valid()
    ensures AlwaysExclusive(c) <==> c.created == Submitted
  {
    if c.created == Submitted {
      forall s | Reachable(c, s)
        ensures Exclusive(s)
      {
        var events :| Exec(c, Init(c), events) == Some(s);
        ExecLeaseInv(c, Init(c), events);
      }
    } else {
      var s := SubmitFreesLease(c);
      assert 0 in s.sessions && 1 in s.sessions && s.sessions[0].token > s.now && s.sessions[1].token > s.now;
    }
  }

  /** On a row created submitted, a worker whose lease has been taken over by another releases
      nothing and schedules nothing. */
  lemma StaleReleaseChangesNothing(c: Config, s: State, w: nat, interval: nat)
    requires c.Valid() && c.created == Submitted && Reachable(c, s)
    requires w in s.sessions && s.latest.Some? && s.latest.value.w != w
    ensures StepGive(s, w, interval).row == s.row
  {
    var events :| Exec(c, Init(c), events) == Some(s);
    ExecLeaseInv(c, Init(c), events);
  }

  /** On a row created submitted, as long as every worker that is still at it ends its round before
      its lease expires, there is at most one of them, and nobody can lock the row beside it. */
  lemma PunctualRoundsDoNotOverlap(c: Config, s: State, live: set<nat>, w: nat, lease: nat)
    requires c.Valid() && c.created == Submitted && Reachable(c, s)
    requires live <= s.sessions.Keys && forall v :: v in live ==> s.sessions[v].token > s.now
    ensures forall u, v :: u in live && v in live ==> u == v
    ensures Step(c, s, Take(w, lease)).Some? ==> live == {}
  {
    var events :| Exec(c, Init(c), events) == Some(s);
    ExecLeaseInv(c, Init(c), events);
  }

  /** A worker that is still at it when its lease expires can be joined by another. */
  lemma OutrunLeaseRun(c: Config) returns (s: State)
    requires c.Valid() && c.created == Submitted
    ensures Reachable(c, s) && 0 in s.sessions && s.sessions[0].token == s.now
    ensures Step(c, s, Take(1, c.maxLease)).Some?
  {
    assert Exec(c, Init(c), []) == Some(Init(c));
    if c.claimed > 0 {
      s := Then(c, Init(c), Tick(c.claimed));
    } else {
      s := Then(c, Init(c), Take(0, c.maxLease));
      s := Then(c, s, Tick(c.maxLease));
    }
  }

  // ---------- recovery ----------

  /** A running row can be locked within the horizon, even if every current holder is dead. */
  predicate RecoverableBy(s: State, limit: int) {
    s.row.status == Submitted || s.row.status == Aborting ==> s.row.nextCron <= limit && s.row.leaseUntil <= limit
  }

  ghost predicate AlwaysRecoverable(c: Config) {
    forall s :: Reachable(c, s) ==> RecoverableBy(s, s.now + c.Horizon())
  }

  predicate NeverFar(c: Config) {
    || c.created == Submitted
    || c.deadline <= c.start + c.Horizon()
    || (c.tt == Msg && c.abortAtomic)
  }

  predicate HorizonInv(c: Config, s: State) {
    && s.now >= c.start
    && s.row.leaseUntil <= s.now + c.Horizon()
    && (s.row.nextCron <= s.now + c.Horizon()
        || (c.tt == Msg && c.abortAtomic && s.row.status == Prepared && s.sessions == map[]))
    && (c.created == Submitted ==> s.row.status != Prepared && forall w :: w in s.sessions ==>
      s.sessions[w].status != Prepared)
  }

  lemma HorizonStep(c: Config, s: State, e: Event)
    requires c.Valid() && NeverFar(c) && HorizonInv(c, s)
    ensures Step(c, s, e).Some? ==> HorizonInv(c, Step(c, s, e).value)
  {
    if e.Give? && e.w in s.sessions {
      BackoffWithinPolicy(s.sessions[e.w].interval, c.retry);
    }
  }

  lemma {:induction false} ExecHorizonInv(c: Config, s: State, events: seq<Event>)
    requires c.Valid() && NeverFar(c) && HorizonInv(c, s)
    ensures Exec(c, s, events).Some? ==> HorizonInv(c, Exec(c, s, events).value)
    decreases |events|
  {
    if events != [] {
      HorizonStep(c, s, events[0]);
      if Step(c, s, events[0]).Some? {
        ExecHorizonInv(c, Step(c, s, events[0]).value, events[1..]);
      }
    }
  }

  lemma FarRun(c: Config) returns (s: State)
    requires c.Valid() && !NeverFar(c)
    ensures Reachable(c, s) && !RecoverableBy(s, s.now + c.Horizon())
  {
    if c.tt == Msg {
      assert Exec(c, Init(c), []) == Some(Init(c));
      s := Then(c, Init(c), AbortOnly);
    } else {
      s := SubmitFreesLease(c);
      s := Then(c, s, Give(0, c.deadline - c.start));
    }
  }

  /** In every reachable state a submitted or aborting row can be locked by now + max(lease, longest
      backoff), exactly when the row was created submitted, or its first schedule is that near
      anyway, or it is a message and abort is one step. For a far-off TCC or XA deadline the
      reason is a release that was computed for the prepared row and hits, by an equal token, the
      lease taken on the submitted one. */
  lemma RecoverableExactly(c: Config)
    requires c.Valid()
    ensures AlwaysRecoverable(c) <==> NeverFar(c)
  {
    if NeverFar(c) {
      forall s | Reachable(c, s)
        ensures RecoverableBy(s, s.now + c.Horizon())
      {
        var events :| Exec(c, Init(c), events) == Some(s);
        ExecHorizonInv(c, Init(c), events);
      }
    } else {
      var s := FarRun(c);
    }
  }
}
