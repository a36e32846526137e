/** A saga or a two-phase message together with the business services behind its branches.

    The coordinator of module Coordinator makes calls. A call it has ever made can reach its service
    at any later time, any number of times, and in any order; the service puts it through the branch
    barrier and, if told to, runs the business logic. A worker can only be told Success or Failure
    if a service really gave that answer; it can always be left without one. Other parties use the
    same barrier store: other transactions, or the local transaction of a message. */
module Effects {
  import opened Types
  import opened Coordinator
  import B = Barrier

  // ---------- services ----------

  /** `scripted`: the services use the Redis barrier, whose keys stay when the business part refuses;
      otherwise they use the SQL barrier, and a refusal rolls its rows back. The next two say which
      kind of call the business logic may refuse. `number` numbers the branches, and `others` are
      the calls that other parties may make on the same store. */
  datatype Services = Services(
    scripted: bool, forwardMayRefuse: bool, undoMayRefuse: bool,
    prefix: string, gid: string, number: nat -> string, others: iset<B.Key>)
  {
    predicate MayRefuse(op: BranchOp) {
      if op == Action then forwardMayRefuse else undoMayRefuse
    }

    /** Every service makes one barrier call per delivery, so the barrier id is the first one. */
    function KeyOf(call: Call): B.Key {
      B.Key(gid, number(call.index), call.op, "01")
    }

    /** Branches have their own numbers, and barrier ids are numbers. */
    ghost predicate Valid() {
      && (forall i, j :: number(i) == number(j) ==> i == j)
      && (forall k :: k in others ==> B.NoDash(k.barrierId))
    }

    /** The store does not tell these keys apart. */
    predicate SameKey(k: B.Key, m: B.Key) {
      if scripted then B.RedisKey(prefix, k) == B.RedisKey(prefix, m) else k == m
    }

    /** This call takes the place of the action of branch i. */
    predicate Takes(k: B.Key, i: nat) {
      || SameKey(k, KeyOf(Call(i, Action)))
      || (B.OriginKey(k).Some? && SameKey(B.OriginKey(k).value, KeyOf(Call(i, Action))))
    }

    /** No other party takes the place of a branch. */
    ghost predicate Clear() {
      forall k, i: nat :: k in others ==> !Takes(k, i)
    }

    /** A barrier record of a forward call proves that the forward effect happened. */
    ghost predicate Faithful() {
      Clear() && (!scripted || !forwardMayRefuse)
    }
  }

  // ---------- the world ----------

  /** `rows` or `keys` is the barrier store; `done[i]` and `undone[i]` count how often the business
      effect of action i and of compensation i was committed; `answered` and `declined` are the
      answers the services ever gave. */
  datatype World = World(
    co: State,
    rows: map<B.Key, BranchOp>,
    keys: map<string, B.Mark>,
    done: seq<nat>,
    undone: seq<nat>,
    answered: set<Call>,
    declined: set<Call>)

  /** How one delivery ends: the service answers, refuses, or dies before committing anything. */
  datatype Fate = Commits | Refuses | Dies

  datatype WorldEvent = Co(e: Event) | Deliver(call: Call, fate: Fate) | Other(k: B.Key)

  function Zeros(n: nat): (s: seq<nat>)
    ensures |s| == n && forall i :: 0 <= i < n ==> s[i] == 0
  {
    seq(n, _ => 0)
  }

  function WorldInit(c: Config): World {
    World(Init(c), map[], map[], Zeros(c.N()), Zeros(c.N()), {}, {})
  }

  function Judged(sv: Services, w: World, k: B.Key): (World, B.Decision) {
    if sv.scripted then
      var (keys, d) := B.RedisJudge(w.keys, sv.prefix, k);
      (w.(keys := keys), d)
    else
      var (rows, d) := B.Decide(w.rows, k);
      (w.(rows := rows), d)
  }

  predicate Has(sv: Services, w: World, k: B.Key) {
    if sv.scripted then B.RedisKey(sv.prefix, k) in w.keys else k in w.rows
  }

  predicate Holds(sv: Services, w: World, call: Call) {
    Has(sv, w, sv.KeyOf(call))
  }

  function Bump(counts: seq<nat>, i: nat): (r: seq<nat>)
    ensures |r| == |counts|
  {
    if i < |counts| then counts[i := counts[i] + 1] else counts
  }

  function StepDeliver(sv: Services, w: World, call: Call, fate: Fate): Option<World> {
    var (w1, d) := Judged(sv, w, sv.KeyOf(call));
    match fate
    case Dies => Some(w)
    case Commits =>
      var w2 := w1.(answered := w.answered + {call});
      if d != B.Execute then Some(w2)
      else if call.op == Action then Some(w2.(done := Bump(w.done, call.index)))
      else Some(w2.(undone := Bump(w.undone, call.index)))
    case Refuses =>
      if d != B.Execute || !sv.MayRefuse(call.op) then None
      else Some((if sv.scripted then w1 else w).(declined := w.declined + {call}))
  }

  /** A worker waiting for branches hears Success or Failure only if that answer was given. */
  predicate Heard(w: World, e: Event) {
    match e
    case Answer(v, r) =>
      v in w.co.sessions && w.co.sessions[v].pc.Calling? ==>
        && (r == Success ==> w.co.sessions[v].pc.call in w.answered)
        && (r == Failure ==> w.co.sessions[v].pc.call in w.declined)
    case FanAnswer(_, i, r) => r == Success ==> Call(i, Action) in w.answered
    case _ => true
  }

  function WorldStep(c: Config, sv: Services, w: World, e: WorldEvent): Option<World>
    requires |w.co.fwd| == c.N()
  {
    match e
    case Co(e) =>
      if !Heard(w, e) then None
      else
        (match Step(c, w.co, e)
         case None => None
         case Some(s) => Some(w.(co := s)))
    case Deliver(call, fate) =>
      if call in w.co.called then StepDeliver(sv, w, call, fate) else None
    case Other(k) => Some(Judged(sv, w, k).0)
  }

  ghost predicate Possible(sv: Services, e: WorldEvent) {
    e.Other? ==> e.k in sv.others
  }

  lemma WorldKeepsWidth(c: Config, sv: Services, w: World, e: WorldEvent)
    requires |w.co.fwd| == c.N()
    ensures WorldStep(c, sv, w, e).Some? ==> |WorldStep(c, sv, w, e).value.co.fwd| == c.N()
  {
    if e.Co? {
      StepKeepsWidth(c, w.co, e.e);
    }
  }

  ghost function WorldExec(c: Config, sv: Services, w: World, events: seq<WorldEvent>): Option<World>
    requires |w.co.fwd| == c.N()
    decreases |events|
  {
    if events == [] then Some(w)
    else
      WorldKeepsWidth(c, sv, w, events[0]);
      if !Possible(sv, events[0]) then None
      else
        match WorldStep(c, sv, w, events[0])
        case None => None
        case Some(w') => WorldExec(c, sv, w', events[1..])
  }

  ghost predicate WorldReachable(c: Config, sv: Services, w: World) {
    exists events :: WorldExec(c, sv, WorldInit(c), events) == Some(w)
  }

  // ---------- the store, seen by branch ----------

  predicate Mine(call: Call) {
    call.op == Action || call.op == Compensate
  }

  /** The store tells the calls of one transaction apart. */
  lemma OwnKeysDiffer(sv: Services, x: Call, y: Call)
    requires sv.Valid()
    ensures sv.SameKey(sv.KeyOf(x), sv.KeyOf(y)) <==> x == y
  {
    B.RedisKeyExactly(sv.prefix, sv.KeyOf(x), sv.KeyOf(y));
    B.OneTransactionIsSeparable(sv.gid, iset{sv.number(x.index), sv.number(y.index)});
  }

  /** What judging any call adds to the store. */
  lemma JudgedHas(sv: Services, w: World, k: B.Key, m: B.Key)
    ensures
      Has(sv, Judged(sv, w, k).0, m) <==>
        Has(sv, w, m) || sv.SameKey(k, m) || (B.OriginKey(k).Some? && sv.SameKey(B.OriginKey(k).value, m))
  {
  }

  /** Both barriers judge a call of this transaction by the records of its branch alone, and record it
      there: the SQL table and the Redis keys are the same four-state machine per branch. */
  lemma JudgedByBranch(sv: Services, w: World, call: Call)
    requires sv.Valid() && Mine(call)
    ensures
      var (w', d) := Judged(sv, w, sv.KeyOf(call));
      var act := Call(call.index, Action);
      && w' == w.(rows := w'.rows, keys := w'.keys)
      && d == (if call.op == Compensate && !Holds(sv, w, act) then B.NullCompensation
               else if Holds(sv, w, call) then B.Duplicated else B.Execute)
      && forall x :: Holds(sv, w', x) <==> Holds(sv, w, x) || x == call || (call.op == Compensate && x == act)
  {
    var act, w' := Call(call.index, Action), Judged(sv, w, sv.KeyOf(call)).0;
    assert B.OriginKey(sv.KeyOf(call)) == if call.op == Compensate then Some(sv.KeyOf(act)) else None;
    OwnKeysDiffer(sv, act, call);
    forall x: Call
      ensures Holds(sv, w', x) <==> Holds(sv, w, x) || x == call || (call.op == Compensate && x == act)
    {
      JudgedHas(sv, w, sv.KeyOf(call), sv.KeyOf(x));
      OwnKeysDiffer(sv, call, x);
      OwnKeysDiffer(sv, act, x);
    }
  }

  /** With the Redis barrier a delivery ends as the script says: it can be declined exactly when the
      script reports a refusal, it takes effect exactly when the script reports that the business part
      was executed, and in both cases the keys are those the script leaves. */
  lemma ScriptedDelivery(sv: Services, w: World, call: Call)
    requires sv.scripted
    ensures
      var (keys, outcome) := B.RedisCall(w.keys, sv.prefix, sv.KeyOf(call), true);
      && (StepDeliver(sv, w, call, Refuses).Some? <==> sv.MayRefuse(call.op) && outcome == B.BusinessRefused)
      && (StepDeliver(sv, w, call, Refuses).Some? ==>
            StepDeliver(sv, w, call, Refuses).value == w.(keys := keys, declined := w.declined + {call}))
    ensures
      var (keys, outcome) := B.RedisCall(w.keys, sv.prefix, sv.KeyOf(call), false);
      var ran := outcome == B.Executed;
      StepDeliver(sv, w, call, Commits) == Some(w.(
        keys := keys, answered := w.answered + {call},
        done := if ran && call.op == Action then Bump(w.done, call.index) else w.done,
        undone := if ran && call.op != Action then Bump(w.undone, call.index) else w.undone))
    ensures StepDeliver(sv, w, call, Dies) == Some(w)
  {
  }

  /** A call that takes the place of a compensation takes that of its action, too. */
  lemma TakesBoth(sv: Services, k: B.Key, i: nat)
    requires B.NoDash(k.barrierId) && sv.SameKey(k, sv.KeyOf(Call(i, Compensate)))
    ensures sv.Takes(k, i)
  {
    B.RedisKeyExactly(sv.prefix, k, sv.KeyOf(Call(i, Compensate)));
    assert k.op == Compensate;
    var o := k.(op := Action);
    assert B.OriginKey(k) == Some(o);
    B.RedisKeyExactly(sv.prefix, o, sv.KeyOf(Call(i, Action)));
  }

  /** Where no other party takes the place of a branch, their calls leave its records alone. */
  lemma OthersLeaveAlone(sv: Services, w: World, k: B.Key, x: Call)
    requires sv.Valid() && sv.Clear() && k in sv.others && Mine(x)
    ensures Holds(sv, Judged(sv, w, k).0, x) <==> Holds(sv, w, x)
  {
    JudgedHas(sv, w, k, sv.KeyOf(x));
    assert !sv.Takes(k, x.index);
    if x.op == Compensate {
      CompensationsStay(sv, k, x.index);
    }
  }

  lemma CompensationsStay(sv: Services, k: B.Key, i: nat)
    requires B.NoDash(k.barrierId) && !sv.Takes(k, i)
    ensures
      var comp := sv.KeyOf(Call(i, Compensate));
      !sv.SameKey(k, comp) && (B.OriginKey(k).Some? ==> !sv.SameKey(B.OriginKey(k).value, comp))
  {
    var comp := sv.KeyOf(Call(i, Compensate));
    if sv.SameKey(k, comp) {
      TakesBoth(sv, k, i);
    }
    if B.OriginKey(k).Some? {
      B.RedisKeyExactly(sv.prefix, B.OriginKey(k).value, comp);
    }
  }
}
