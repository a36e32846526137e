/** A two-phase message together with its local transaction on Redis. The business side prepares the
    message, runs the local transaction through the barrier, and submits; a worker that finds the
    message still prepared asks whether the local transaction was committed, and the answer decides. */
module MessageQuery {
  import opened Types
  import opened Coordinator
  import opened CoordinatorTheorems
  import H = CoordinatorHistory
  import S = CoordinatorSafety
  import B = Barrier

  /** Whether the local transaction may refuse, and which calls other parties make on the same Redis. */
  datatype Party = Party(prefix: string, gid: string, mayRefuse: bool, others: iset<B.Key>) {
    function Key(): string {
      B.RedisKey(prefix, B.QueryKey(gid))
    }
  }

  /** `ran` counts how often the local transaction was committed, and `told` holds the answers that the
      business side ever gave: an answer may be heard late, or never. */
  datatype World = World(co: State, keys: map<string, B.Mark>, ran: nat, told: set<bool>)

  datatype WorldEvent = Co(e: Event) | Local(refuses: bool) | Query | Other(k: B.Key)

  function WorldInit(c: Config): World {
    World(Init(c), map[], 0, {})
  }

  /** A worker hears that the local transaction was committed, or was not, only if it was told so. */
  predicate MayHear(w: World, e: Event) {
    e.Answer? && e.w in w.co.sessions && w.co.sessions[e.w].pc == Asking ==>
      && (e.r == Success ==> true in w.told)
      && (e.r == Failure ==> false in w.told)
  }

  ghost function WorldStep(c: Config, p: Party, w: World, e: WorldEvent): Option<World>
    requires |w.co.fwd| == c.N()
  {
    match e
    case Co(e) =>
      if !MayHear(w, e) then None
      else
        (match Step(c, w.co, e)
         case None => None
         case Some(s) => Some(w.(co := s)))
    case Local(refuses) =>
      if refuses && !p.mayRefuse then None
      else
        var (keys, outcome) := B.RedisCall(w.keys, p.prefix, B.QueryKey(p.gid), refuses);
        Some(w.(keys := keys, ran := w.ran + if outcome == B.Executed then 1 else 0))
    case Query =>
      var (keys, committed) := B.QueryPrepared(w.keys, p.prefix, p.gid);
      Some(w.(keys := keys, told := w.told + {committed}))
    case Other(k) => if k in p.others then Some(w.(keys := B.RedisJudge(w.keys, p.prefix, k).0)) else None
  }

  ghost function Run(c: Config, p: Party, events: seq<WorldEvent>): (r: Option<World>)
    ensures r.Some? ==> |r.value.co.fwd| == c.N()
  {
    if events == [] then Some(WorldInit(c))
    else
      match Run(c, p, events[..|events| - 1])
      case None => None
      case Some(w) =>
        WorldKeepsWidth(c, p, w, events[|events| - 1]);
        WorldStep(c, p, w, events[|events| - 1])
  }

  lemma WorldKeepsWidth(c: Config, p: Party, w: World, e: WorldEvent)
    requires |w.co.fwd| == c.N()
    ensures WorldStep(c, p, w, e).Some? ==> |WorldStep(c, p, w, e).value.co.fwd| == c.N()
  {
    if e.Co? {
      StepKeepsWidth(c, w.co, e.e);
    }
  }

  /** What the coordinator sees of a run. */
  function Seen(events: seq<WorldEvent>): seq<Event> {
    if events == [] then []
    else
      var last, before := events[|events| - 1], Seen(events[..|events| - 1]);
      if last.Co? then before + [last.e] else before
  }

  // ---------- invariants ----------

  /** The mark in the query key against what was told and what ran. */
  ghost predicate MarkInv(p: Party, w: World) {
    && (false in w.told ==> p.Key() in w.keys && w.keys[p.Key()] == B.RollbackMark)
    && (true in w.told ==> p.Key() in w.keys && w.keys[p.Key()] != B.RollbackMark)
    && (w.ran > 0 ==> p.Key() in w.keys && w.keys[p.Key()] != B.RollbackMark)
  }

  /** Only a local transaction that was committed can have set the key otherwise. */
  ghost predicate OnlyLocalSets(p: Party) {
    !p.mayRefuse && forall k :: k in p.others ==> !B.SetsQueryKey(p.prefix, p.gid, k)
  }

  ghost predicate TrueInv(p: Party, w: World) {
    p.Key() in w.keys && w.keys[p.Key()] != B.RollbackMark ==> w.ran > 0
  }

  ghost predicate Tracks(c: Config, w: World, seen: seq<Event>) {
    && RunFrom(c, seen) == Some(w.co)
    && (H.Heard(seen, Success) ==> true in w.told)
    && (H.Heard(seen, Failure) ==> false in w.told)
  }

  lemma MarkStep(c: Config, p: Party, w: World, e: WorldEvent)
    requires |w.co.fwd| == c.N() && MarkInv(p, w) && WorldStep(c, p, w, e).Some?
    ensures MarkInv(p, WorldStep(c, p, w, e).value)
    ensures OnlyLocalSets(p) && TrueInv(p, w) ==> TrueInv(p, WorldStep(c, p, w, e).value)
  {
  }

  lemma TrackStep(c: Config, p: Party, w: World, seen: seq<Event>, e: Event)
    requires c.Valid() && c.tt == Msg && |w.co.fwd| == c.N() && Tracks(c, w, seen)
    requires WorldStep(c, p, w, Co(e)).Some?
    ensures Tracks(c, WorldStep(c, p, w, Co(e)).value, seen + [e])
  {
    ExecSnoc(c, Init(c), seen, e);
    if e.Answer? {
      assert Reachable(c, w.co);
      ReachableInv(c, w.co);
      assert S.Good(c, w.co, w.co.sessions[e.w]);
    }
  }

  lemma {:induction false} RunInv(c: Config, p: Party, events: seq<WorldEvent>)
    requires c.Valid() && c.tt == Msg && Run(c, p, events).Some?
    ensures
      var w := Run(c, p, events).value;
      MarkInv(p, w) && (OnlyLocalSets(p) ==> TrueInv(p, w)) && Tracks(c, w, Seen(events))
    decreases |events|
  {
    if events != [] {
      var front, last := events[..|events| - 1], events[|events| - 1];
      RunInv(c, p, front);
      var w := Run(c, p, front).value;
      MarkStep(c, p, w, last);
      if last.Co? {
        TrackStep(c, p, w, Seen(front), last.e);
      }
    }
  }

  // ---------- the promises ----------

  /** Over every run, with any number of workers, late answers and other parties on the same Redis: a
      message that its caller did not abort and that has failed has no committed local transaction. As
      the status is final, none is ever committed later either. */
  lemma FailedIsNotCommitted(c: Config, p: Party, events: seq<WorldEvent>, w: World)
    requires c.Valid() && c.tt == Msg && Run(c, p, events) == Some(w)
    requires w.co.row == Failed && forall k :: Co(AbortWrite(k)) !in events
    ensures w.ran == 0
  {
    RunInv(c, p, events);
    NoAbort(events);
    H.MessageFollowsAnswers(c, Seen(events), w.co);
  }

  lemma NoAbort(events: seq<WorldEvent>)
    requires forall k :: Co(AbortWrite(k)) !in events
    ensures !H.Aborted(Seen(events))
  {
    forall e | e in Seen(events)
      ensures Co(e) in events
    {
      SeenIn(events, e);
    }
  }

  lemma {:induction false} SeenIn(events: seq<WorldEvent>, e: Event)
    requires e in Seen(events)
    ensures Co(e) in events
    decreases |events|
  {
    var front, last := events[..|events| - 1], events[|events| - 1];
    if last == Co(e) {
      assert events[|events| - 1] == Co(e);
    } else {
      SeenIn(front, e);
      assert Co(e) in front;
    }
  }

  ghost predicate NotSubmitted(events: seq<WorldEvent>) {
    forall e :: Co(e) in events ==> !e.Submit? && !e.SubmitWrite?
  }

  /** A message that moved on without having been submitted by its caller has a committed local
      transaction. */
  ghost predicate SubmittedIsCommitted(c: Config, p: Party) {
    forall events, w ::
      Run(c, p, events) == Some(w) && NotSubmitted(events) && w.co.row == Submitted ==> w.ran > 0
  }

  lemma LocalAnswerHolds(c: Config, p: Party, events: seq<WorldEvent>, w: World)
    requires c.Valid() && c.tt == Msg && OnlyLocalSets(p) && Run(c, p, events) == Some(w)
    requires NotSubmitted(events) && w.co.row == Submitted
    ensures w.ran > 0
  {
    RunInv(c, p, events);
    forall e | e in Seen(events)
      ensures !e.Submit? && !e.SubmitWrite?
    {
      SeenIn(events, e);
    }
    H.MessageFollowsAnswers(c, Seen(events), w.co);
  }

  lemma Next(c: Config, p: Party, events: seq<WorldEvent>, w: World, e: WorldEvent) returns (w': World)
    requires Run(c, p, events) == Some(w) && WorldStep(c, p, w, e).Some?
    ensures Run(c, p, events + [e]) == Some(w') && WorldStep(c, p, w, e) == Some(w')
  {
    assert (events + [e])[..|events|] == events;
    w' := WorldStep(c, p, w, e).value;
  }

  lemma LieTold(c: Config, p: Party, first: WorldEvent) returns (w: World)
    requires (first == Local(true) && p.mayRefuse) ||
             (first.Other? && first.k in p.others && B.SetsQueryKey(p.prefix, p.gid, first.k))
    ensures Run(c, p, [first, Query]) == Some(w) && w.co == Init(c) && w.ran == 0 && true in w.told
  {
    assert Run(c, p, []) == Some(WorldInit(c));
    w := Next(c, p, [], WorldInit(c), first);
    assert w.ran == 0 && p.Key() in w.keys && w.keys[p.Key()] != B.RollbackMark;
    w := Next(c, p, [] + [first], w, Query);
    assert [] + [first] + [Query] == [first, Query];
  }

  lemma LieHeard(c: Config, p: Party, events: seq<WorldEvent>, w0: World)
    requires c.Valid() && c.tt == Msg && Run(c, p, events) == Some(w0)
    requires w0.co == Init(c) && w0.ran == 0 && true in w0.told && NotSubmitted(events)
    ensures !SubmittedIsCommitted(c, p)
  {
    var w := Next(c, p, events, w0, Co(Lock(0)));
    assert w.co.sessions[0] == Session(Prepared, Asking);
    w := Next(c, p, events + [Co(Lock(0))], w, Co(Answer(0, Success)));
    assert w.co.sessions[0] == Session(Prepared, Deciding(Submitted));
    w := Next(c, p, events + [Co(Lock(0))] + [Co(Answer(0, Success))], w, Co(Write(0)));
    assert NotSubmitted(events + [Co(Lock(0))] + [Co(Answer(0, Success))] + [Co(Write(0))]);
    assert w.co.row == Submitted && w.ran == 0;
  }

  /** A query is answered "committed" although nothing was: the worker that asked moves the message on. */
  lemma FalseAnswerMoves(c: Config, p: Party, first: WorldEvent)
    requires c.Valid() && c.tt == Msg
    requires (first == Local(true) && p.mayRefuse) ||
             (first.Other? && first.k in p.others && B.SetsQueryKey(p.prefix, p.gid, first.k))
    ensures !SubmittedIsCommitted(c, p)
  {
    var w := LieTold(c, p, first);
    LieHeard(c, p, [first, Query], w);
  }

  /** It has, over every run, exactly when the local transaction never refuses and no other party sets
      the key that the query looks at. */
  lemma SubmittedIsCommittedExactly(c: Config, p: Party)
    requires c.Valid() && c.tt == Msg
    ensures SubmittedIsCommitted(c, p) <==>
            !p.mayRefuse && forall k :: k in p.others ==> !B.SetsQueryKey(p.prefix, p.gid, k)
  {
    if p.mayRefuse {
      FalseAnswerMoves(c, p, Local(true));
    } else if k :| k in p.others && B.SetsQueryKey(p.prefix, p.gid, k) {
      FalseAnswerMoves(c, p, Other(k));
    } else {
      forall events, w | Run(c, p, events) == Some(w) && NotSubmitted(events) && w.co.row == Submitted
        ensures w.ran > 0
      {
        LocalAnswerHolds(c, p, events, w);
      }
    }
  }
}
