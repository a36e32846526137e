/** The leases of module Leases against the row operations and the workers' decisions: what each event
    does to row and sessions, when it is possible, and how backoff builds up in a run. */
module LeaseRuns {
  import opened Types
  import opened Leases
  import Rows
  import L = RowLife
  import C = Coordinator
  import S = CoordinatorSafety
  import W = WorkflowTheorems

  const GID := "g"

  /** The table operations that an event stands for. */
  function Operations(s: State, e: Event): seq<L.Event> {
    match e
    case Tick(_) => []
    case Take(_, lease) => [L.Lock(GID, "worker", s.now, lease)]
    case Give(w, interval) => if w in s.sessions then [L.Release(GID, s.sessions[w].token, interval, s.now)] else []
    case Move(w, to) => if w in s.sessions then [L.Move(GID, s.sessions[w].status, to, "")] else []
    case Wake => [L.Wake(GID, s.now)]
    case Abort => [L.Move(GID, s.row.status, Aborting, ""), L.Wake(GID, s.now)]
    case AbortOnly => [L.Move(GID, s.row.status, Aborting, "")]
    case Submit(_, lease) => [L.Submit(GID, if lease == 0 then "" else "submitter", s.now + lease)]
  }

  lemma TwoEvents(t: Rows.Table, a: L.Event, b: L.Event)
    ensures L.Exec(t, [a]) == L.Step(t, a)
    ensures L.Exec(t, [a, b]) == L.Step(L.Step(t, a), b)
  {
    assert [a][1..] == [] && [a, b][1..] == [b] && [b][1..] == [];
    assert L.Exec(L.Step(t, a), [b]) == L.Exec(L.Step(L.Step(t, a), b), []);
  }

  /** The row moves by the operations of the stores alone, whatever the event. */
  lemma RowFollowsOperations(c: Config, s: State, e: Event)
    requires Step(c, s, e).Some?
    ensures L.Exec(map[GID := s.row], Operations(s, e)) == map[GID := Step(c, s, e).value.row]
  {
    var t := map[GID := s.row];
    match e {
      case Abort =>
        TwoEvents(t, L.Move(GID, s.row.status, Aborting, ""), L.Wake(GID, s.now));
        assert L.Step(t, L.Move(GID, s.row.status, Aborting, "")) == map[GID := StepAbort(s).row];
      case Tick(_) =>
      case _ =>
        assert |Operations(s, e)| == 1;
        TwoEvents(t, Operations(s, e)[0], Operations(s, e)[0]);
    }
  }

  /** What a worker knows: the end of its lease, and status and backoff of the row, as they were when it
      was given the lease; then the status that it has written itself. A submitter that takes the row
      along is handed the old backoff on SQL, and none on Redis. */
  lemma SessionsKnow(c: Config, s: State, e: Event)
    requires Step(c, s, e).Some?
    ensures
      var s' := Step(c, s, e).value;
      match e
      case Take(w, lease) => s'.sessions == s.sessions[w := Session(s.now + lease, s.row.status, s.row.interval)]
      case Give(w, _) => s'.sessions == s.sessions - {w}
      case Move(w, to) =>
        w in s.sessions && s'.sessions == s.sessions[w := Session(s.sessions[w].token, to, s.sessions[w].interval)]
      case Submit(w, lease) =>
        s'.sessions ==
          if s.row.status != Prepared || lease == 0 then s.sessions
          else s.sessions[w := Session(s.now + lease, Submitted, if c.backend == SqlBackend then s.row.interval else 0)]
      case _ => s'.sessions == s.sessions
  {
  }

  /** When events are possible: a row is locked when it is running, or prepared and not a saga or workflow,
      and its time has come and its lease is over; it is aborted as `Api::abort` allows; and a worker
      writes only over the status that it holds. */
  lemma WhenPossible(c: Config, s: State, w: nat, lease: nat, to: GlobalStatus)
    ensures Step(c, s, Take(w, lease)).Some? <==>
            && w !in s.sessions && 1 <= lease <= c.maxLease && s.row.nextCron <= s.now && s.row.leaseUntil <= s.now
            && (s.row.status == Submitted || s.row.status == Aborting
                || (s.row.status == Prepared && s.row.tt != Saga && s.row.tt != Workflow))
    ensures Step(c, s, Abort).Some? <==>
            s.row.status == Prepared || (s.row.status == Submitted && (c.tt == Saga || c.tt == Workflow))
    ensures Step(c, s, AbortOnly).Some? <==> !c.abortAtomic && Step(c, s, Abort).Some?
    ensures Step(c, s, Submit(w, lease)).Some? <==> w !in s.sessions && lease <= c.maxLease
    ensures Step(c, s, Move(w, to)).Some? <==>
            w in s.sessions && s.sessions[w].status == s.row.status && MoveAllowed(c, s.now, s.row.status, to)
    ensures Step(c, s, Give(w, 0)).Some? <==> w in s.sessions
  {
  }

  /** From the deadline on the writes are those that the workers of Coordinator attempt, in every mode that
      it has and with at least one branch; and for a workflow those that its machine attempts. */
  lemma MovesAreTargets(c: Config, d: C.Config, now: int, from: GlobalStatus, to: GlobalStatus)
    requires now >= c.deadline
    ensures d.Valid() && d.tt == c.tt && d.N() > 0 ==> (MoveAllowed(c, now, from, to) <==> S.Target(d, from, to))
    ensures c.tt == Workflow ==> (MoveAllowed(c, now, from, to) <==> from != to && W.Edge(from, to))
  {
  }

  // ---------- backoff in a run ----------

  /** The row after n rounds that had to be retried. */
  predicate Retried(c: Config, s: State, n: nat) {
    && s.now >= 0 && s.sessions == map[] && s.row.status == Submitted && s.row.leaseUntil == 0
    && s.row.interval == BackoffAfter(n, c.retry) && s.row.retryCount == n
    && s.row.nextCron == s.now + s.row.interval
  }

  /** A worker holds the row and releases it with the next backoff. */
  lemma GivesBack(c: Config, s: State, n: nat) returns (s': State)
    requires c.Valid() && Reachable(c, s) && s.now >= 0 && s.sessions.Keys == {0} && s.row.status == Submitted
    requires s.sessions[0].interval == BackoffAfter(n, c.retry) && s.row.retryCount == n
    requires s.sessions[0].status == Submitted && s.row.leaseUntil == s.sessions[0].token == s.row.nextCron
    ensures Reachable(c, s') && Retried(c, s', n + 1)
  {
    var interval := NextInterval(s.sessions[0].interval, c.retry);
    BackoffWithinPolicy(s.sessions[0].interval, c.retry);
    s' := Then(c, s, Give(0, interval));
    assert s'.sessions == map[];
  }

  /** A transaction whose branches stay unknown is retried again and again: after n rounds its interval is
      the n-th backoff, and its retry count is n. */
  lemma {:induction false} BackoffRun(c: Config, n: nat) returns (s: State)
    requires c.Valid() && c.created == Submitted && n > 0
    ensures Reachable(c, s) && Retried(c, s, n)
    decreases n
  {
    if n == 1 {
      assert Exec(c, Init(c), []) == Some(Init(c));
      s := Init(c);
      if c.claimed == 0 {
        s := Then(c, s, Take(0, c.maxLease));
      }
      s := GivesBack(c, s, 0);
    } else {
      s := BackoffRun(c, n - 1);
      BackoffWithinPolicy(BackoffAfter(n - 2, c.retry), c.retry);
      s := Then(c, s, Tick(s.row.interval));
      s := Then(c, s, Take(0, c.maxLease));
      s := GivesBack(c, s, n - 1);
    }
  }
}
