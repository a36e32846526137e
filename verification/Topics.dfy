/** Expanding the actions of a two-phase message into branches: a plain address is one branch, a
    topic is one branch per subscriber. The driver later tells branches apart by their number
    alone, so the numbers must be distinct. */
module Topics {
  import opened Types
  import opened BranchIds

  const TOPIC_PREFIX := "topic://"

  datatype MsgBranch = MsgBranch(action: string, payload: string, branchId: string, step: Option<nat>)

  datatype ExpandError = PayloadCount | EmptyTopic | TopicNotFound

  datatype Expanded = Ok(branches: seq<MsgBranch>, emptyTopics: seq<string>) | Err(error: ExpandError)

  type Subscriptions = string -> seq<string>

  predicate IsTopic(action: string) {
    TOPIC_PREFIX <= action
  }

  function TopicName(action: string): string
    requires IsTopic(action)
  {
    action[|TOPIC_PREFIX|..]
  }

  /** An action names a topic exactly when it is the prefix followed by the name. */
  lemma TopicNames(action: string, name: string)
    ensures IsTopic(action) && TopicName(action) == name <==> action == "topic://" + name
  {
    if IsTopic(action) {
      assert action == TOPIC_PREFIX + action[|TOPIC_PREFIX|..];
    }
    if action == "topic://" + name {
      assert action[|TOPIC_PREFIX|..] == name;
    }
  }

  /** The addresses that one action stands for. */
  function Urls(action: string, subs: Subscriptions): seq<string> {
    if IsTopic(action) then subs(TopicName(action)) else [action]
  }

  /** The number of the j-th of n branches of step i. */
  function FanId(i: nat, j: nat, n: nat): string {
    if n == 1 then Pad2(i + 1) else Pad2(i + 1) + "-" + Pad2(j + 1)
  }

  function StepBranches(i: nat, urls: seq<string>, payload: string): (r: seq<MsgBranch>)
    ensures |r| == |urls|
  {
    seq(|urls|, j requires 0 <= j < |urls| => MsgBranch(urls[j], payload, FanId(i, j, |urls|), Some(i)))
  }

  function PayloadOf(payloads: seq<string>, i: nat): string {
    if i < |payloads| then payloads[i] else ""
  }

  /** All branches of the first n steps, in order. */
  function Branches(actions: seq<string>, payloads: seq<string>, subs: Subscriptions, n: nat): seq<MsgBranch>
    requires n <= |actions|
  {
    if n == 0 then []
    else Branches(actions, payloads, subs, n - 1)
         + StepBranches(n - 1, Urls(actions[n - 1], subs), PayloadOf(payloads, n - 1))
  }

  /** The topics among the first n steps that nobody subscribes to. */
  function EmptyTopics(actions: seq<string>, subs: Subscriptions, n: nat): seq<string>
    requires n <= |actions|
  {
    if n == 0 then []
    else
      var rest := EmptyTopics(actions, subs, n - 1);
      var a := actions[n - 1];
      if IsTopic(a) && subs(TopicName(a)) == [] then rest + [TopicName(a)] else rest
  }

  /** Why a step cannot be expanded, if so. */
  function StepError(action: string, subs: Subscriptions, allowEmpty: bool): Option<ExpandError> {
    if !IsTopic(action) then None
    else if TopicName(action) == "" then Some(EmptyTopic)
    else if subs(TopicName(action)) == [] && !allowEmpty then Some(TopicNotFound)
    else None
  }

  /** It is a topic without a name, or one that nobody subscribes to where that is not allowed. */
  lemma StepErrorExactly(action: string, subs: Subscriptions, allowEmpty: bool)
    ensures StepError(action, subs, allowEmpty) == Some(EmptyTopic) <==> action == "topic://"
    ensures StepError(action, subs, allowEmpty) == Some(TopicNotFound) <==>
            !allowEmpty && exists name :: name != "" && action == "topic://" + name && subs(name) == []
    ensures StepError(action, subs, allowEmpty) != Some(PayloadCount)
  {
    TopicNames(action, "");
    assert "topic://" + "" == "topic://";
    if IsTopic(action) {
      TopicNames(action, TopicName(action));
    }
    forall name | action == "topic://" + name
      ensures IsTopic(action) && TopicName(action) == name
    {
      TopicNames(action, name);
    }
  }

  /** The first step that cannot be expanded decides the error. */
  predicate FailsAt(actions: seq<string>, subs: Subscriptions, allowEmpty: bool, i: nat, e: ExpandError) {
    && i < |actions| && StepError(actions[i], subs, allowEmpty) == Some(e)
    && forall k :: 0 <= k < i ==> StepError(actions[k], subs, allowEmpty) == None
  }

  /** The inner loop: the branches of one step. */
  method ExpandStep(i: nat, urls: seq<string>, payload: string) returns (branches: seq<MsgBranch>)
    ensures branches == StepBranches(i, urls, payload)
  {
    branches := [];
    var n := |urls|;
    for j := 0 to n
      invariant |branches| == j
      invariant forall k :: 0 <= k < j ==> branches[k] == StepBranches(i, urls, payload)[k]
    {
      var branchId := if n == 1 then Pad2(i + 1) else Pad2(i + 1) + "-" + Pad2(j + 1);
      branches := branches + [MsgBranch(urls[j], payload, branchId, Some(i))];
    }
  }

  method ExpandMsgSteps(actions: seq<string>, payloads: seq<string>, subs: Subscriptions, allowEmpty: bool)
    returns (r: Expanded)
    ensures r == Err(PayloadCount) <==> payloads != [] && |payloads| != |actions|
    ensures r.Err? && r.error != PayloadCount ==> exists i :: FailsAt(actions, subs, allowEmpty, i, r.error)
    ensures r.Ok? ==>
      && (payloads == [] || |payloads| == |actions|)
      && (forall i :: 0 <= i < |actions| ==> StepError(actions[i], subs, allowEmpty) == None)
      && r.branches == Branches(actions, payloads, subs, |actions|)
      && r.emptyTopics == EmptyTopics(actions, subs, |actions|)
  {
    if payloads != [] && |payloads| != |actions| {
      return Err(PayloadCount);
    }
    var branches: seq<MsgBranch> := [];
    var empty: seq<string> := [];
    for i := 0 to |actions|
      invariant branches == Branches(actions, payloads, subs, i)
      invariant empty == EmptyTopics(actions, subs, i)
      invariant forall k :: 0 <= k < i ==> StepError(actions[k], subs, allowEmpty) == None
    {
      var action := actions[i];
      var payload := if i < |payloads| then payloads[i] else "";
      var urls := [action];
      if IsTopic(action) {
        if TopicName(action) == "" {
          assert FailsAt(actions, subs, allowEmpty, i, EmptyTopic);
          return Err(EmptyTopic);
        }
        urls := subs(TopicName(action));
        if urls == [] {
          if !allowEmpty {
            assert FailsAt(actions, subs, allowEmpty, i, TopicNotFound);
            return Err(TopicNotFound);
          }
          empty := empty + [TopicName(action)];
        }
      }
      var step := ExpandStep(i, urls, payload);
      branches := branches + step;
    }
    return Ok(branches, empty);
  }

  // ---------- numbers are distinct ----------

  lemma DigitsHaveNoDash(n: nat)
    ensures '-' !in Pad2(n)
  {
    assert AllDigits(Pad2(n));
  }

  /** What a fan-out number starts with, up to its dash if it has one. */
  function BeforeDash(s: string): string {
    if s == [] || s[0] == '-' then [] else [s[0]] + BeforeDash(s[1..])
  }

  lemma {:induction false} BeforeDashOf(a: string, b: string)
    requires '-' !in a
    ensures BeforeDash(a) == a
    ensures BeforeDash(a + "-" + b) == a
  {
    if a == [] {
      assert a + "-" + b == "-" + b;
    } else {
      assert a[0] in a;
      assert (a + "-" + b)[1..] == a[1..] + "-" + b;
      BeforeDashOf(a[1..], b);
    }
  }

  /** Different steps never share a number, and within a step different positions do not either. */
  lemma FanIdInjective(i: nat, j: nat, n: nat, i': nat, j': nat, n': nat)
    requires j < n && j' < n'
    requires FanId(i, j, n) == FanId(i', j', n')
    ensures i == i'
    ensures n == n' ==> j == j'
  {
    DigitsHaveNoDash(i + 1);
    DigitsHaveNoDash(i' + 1);
    BeforeDashOf(Pad2(i + 1), Pad2(j + 1));
    BeforeDashOf(Pad2(i' + 1), Pad2(j' + 1));
    assert BeforeDash(FanId(i, j, n)) == Pad2(i + 1) && BeforeDash(FanId(i', j', n')) == Pad2(i' + 1);
    Pad2Injective(i + 1, i' + 1);
    if n == n' && n != 1 {
      var head := Pad2(i + 1) + "-";
      assert (head + Pad2(j + 1))[|head|..] == Pad2(j + 1) && (head + Pad2(j' + 1))[|head|..] == Pad2(j' + 1);
      Pad2Injective(j + 1, j' + 1);
    }
  }

  /** This is the branch of subscriber j of step i: it goes to that subscriber of the topic that the
      action names, or to the action itself where that is a plain address; it carries the payload of its
      step and the number of its step, with its own place added where there are several subscribers. */
  predicate ComesFrom(actions: seq<string>, payloads: seq<string>, subs: Subscriptions, b: MsgBranch, i: nat, j: nat) {
    && i < |actions|
    && (if IsTopic(actions[i])
        then
          var subscribers := subs(TopicName(actions[i]));
          && j < |subscribers| && b.action == subscribers[j]
          && b.branchId == (if |subscribers| == 1 then Pad2(i + 1) else Pad2(i + 1) + "-" + Pad2(j + 1))
        else j == 0 && b.action == actions[i] && b.branchId == Pad2(i + 1))
    && b.payload == (if i < |payloads| then payloads[i] else "")
    && b.step == Some(i)
  }

  lemma StepBranchComes(actions: seq<string>, payloads: seq<string>, subs: Subscriptions, b: MsgBranch, i: nat, j: nat)
    requires i < |actions|
    ensures ComesFrom(actions, payloads, subs, b, i, j) <==>
            j < |Urls(actions[i], subs)| && b == StepBranches(i, Urls(actions[i], subs), PayloadOf(payloads, i))[j]
  {
  }

  /** Where the k-th branch of the first n steps stands: in the last of them, or before. */
  lemma InLastStep(actions: seq<string>, payloads: seq<string>, subs: Subscriptions, n: nat, k: nat)
    requires n <= |actions| && k < |Branches(actions, payloads, subs, n)|
    ensures n > 0
    ensures
      var all, before := Branches(actions, payloads, subs, n), Branches(actions, payloads, subs, n - 1);
      if k < |before| then all[k] == before[k]
      else ComesFrom(actions, payloads, subs, all[k], n - 1, k - |before|)
  {
    var all, before := Branches(actions, payloads, subs, n), Branches(actions, payloads, subs, n - 1);
    if k >= |before| {
      StepBranchComes(actions, payloads, subs, all[k], n - 1, k - |before|);
    }
  }

  /** Every branch of the expansion comes from one step and one subscriber. */
  lemma {:induction false} BranchOrigin(actions: seq<string>, payloads: seq<string>, subs: Subscriptions, n: nat,
                                        k: nat)
    returns (i: nat, j: nat)
    requires n <= |actions| && k < |Branches(actions, payloads, subs, n)|
    ensures i < n && ComesFrom(actions, payloads, subs, Branches(actions, payloads, subs, n)[k], i, j)
    ensures k == |Branches(actions, payloads, subs, i)| + j
    decreases n
  {
    InLastStep(actions, payloads, subs, n, k);
    var before := Branches(actions, payloads, subs, n - 1);
    if k < |before| {
      i, j := BranchOrigin(actions, payloads, subs, n - 1, k);
      assert ComesFrom(actions, payloads, subs, before[k], i, j);
    } else {
      i, j := n - 1, k - |before|;
    }
  }

  lemma {:induction false} LengthsAscend(actions: seq<string>, payloads: seq<string>, subs: Subscriptions, m: nat,
                                         n: nat)
    requires m <= n <= |actions|
    ensures |Branches(actions, payloads, subs, m)| <= |Branches(actions, payloads, subs, n)|
    decreases n
  {
    if m < n {
      LengthsAscend(actions, payloads, subs, m, n - 1);
    }
  }

  /** Steps ascend, and within a step the subscribers keep their order. */
  lemma ExpansionInOrder(actions: seq<string>, payloads: seq<string>, subs: Subscriptions, n: nat, k: nat, l: nat)
    returns (i: nat, j: nat, i': nat, j': nat)
    requires n <= |actions| && k < l < |Branches(actions, payloads, subs, n)|
    ensures ComesFrom(actions, payloads, subs, Branches(actions, payloads, subs, n)[k], i, j)
    ensures ComesFrom(actions, payloads, subs, Branches(actions, payloads, subs, n)[l], i', j')
    ensures i' < n && (i < i' || (i == i' && j < j'))
  {
    i, j := BranchOrigin(actions, payloads, subs, n, k);
    i', j' := BranchOrigin(actions, payloads, subs, n, l);
    PlacesAscend(actions, payloads, subs, k, l, i, j, i', j');
  }

  /** Places are counted through the steps. */
  lemma PlacesAscend(actions: seq<string>, payloads: seq<string>, subs: Subscriptions, k: nat, l: nat,
                     i: nat, j: nat, i': nat, j': nat)
    requires k < l && i < |actions| && i' < |actions| && j' < |Urls(actions[i'], subs)|
    requires k == |Branches(actions, payloads, subs, i)| + j && l == |Branches(actions, payloads, subs, i')| + j'
    ensures i < i' || (i == i' && j < j')
  {
    if i > i' {
      LengthsAscend(actions, payloads, subs, i' + 1, i);
    }
  }

  /** Conversely every subscriber of every step, and every plain address, has its branch. */
  lemma {:induction false} NobodyLeftOut(actions: seq<string>, payloads: seq<string>, subs: Subscriptions, n: nat,
                                         i: nat, j: nat)
    returns (k: nat)
    requires n <= |actions| && i < n
    requires if IsTopic(actions[i]) then j < |subs(TopicName(actions[i]))| else j == 0
    ensures k < |Branches(actions, payloads, subs, n)|
    ensures ComesFrom(actions, payloads, subs, Branches(actions, payloads, subs, n)[k], i, j)
    decreases n
  {
    if i < n - 1 {
      k := NobodyLeftOut(actions, payloads, subs, n - 1, i, j);
      PrefixStays(actions, payloads, subs, n, k);
    } else {
      k := LastStepBranch(actions, payloads, subs, n, j);
    }
  }

  lemma PrefixStays(actions: seq<string>, payloads: seq<string>, subs: Subscriptions, n: nat, k: nat)
    requires 0 < n <= |actions| && k < |Branches(actions, payloads, subs, n - 1)|
    ensures k < |Branches(actions, payloads, subs, n)|
    ensures Branches(actions, payloads, subs, n)[k] == Branches(actions, payloads, subs, n - 1)[k]
  {
  }

  lemma LastStepBranch(actions: seq<string>, payloads: seq<string>, subs: Subscriptions, n: nat, j: nat)
    returns (k: nat)
    requires 0 < n <= |actions| && j < |Urls(actions[n - 1], subs)|
    ensures k < |Branches(actions, payloads, subs, n)|
    ensures ComesFrom(actions, payloads, subs, Branches(actions, payloads, subs, n)[k], n - 1, j)
  {
    k := |Branches(actions, payloads, subs, n - 1)| + j;
    InLastStep(actions, payloads, subs, n, k);
  }

  lemma OriginIsUnique(actions: seq<string>, payloads: seq<string>, subs: Subscriptions, b: MsgBranch,
                       i: nat, j: nat, i': nat, j': nat)
    requires ComesFrom(actions, payloads, subs, b, i, j) && ComesFrom(actions, payloads, subs, b, i', j')
    ensures i == i' && j == j'
  {
    if IsTopic(actions[i]) {
      FanIdInjective(i, j, |subs(TopicName(actions[i]))|, i', j', |subs(TopicName(actions[i]))|);
    }
  }

  /** And only one: no two branches of an expansion have the same origin. */
  lemma NobodyTwice(actions: seq<string>, payloads: seq<string>, subs: Subscriptions, n: nat, k: nat, l: nat,
                    i: nat, j: nat)
    requires n <= |actions| && k < l < |Branches(actions, payloads, subs, n)|
    ensures !(ComesFrom(actions, payloads, subs, Branches(actions, payloads, subs, n)[k], i, j) &&
              ComesFrom(actions, payloads, subs, Branches(actions, payloads, subs, n)[l], i, j))
  {
    var a, x, b, y := ExpansionInOrder(actions, payloads, subs, n, k, l);
    var first, second := Branches(actions, payloads, subs, n)[k], Branches(actions, payloads, subs, n)[l];
    if ComesFrom(actions, payloads, subs, first, i, j) && ComesFrom(actions, payloads, subs, second, i, j) {
      OriginIsUnique(actions, payloads, subs, first, i, j, a, x);
      OriginIsUnique(actions, payloads, subs, second, i, j, b, y);
    }
  }

  /** The topics reported as empty: each is a step that names a topic without subscribers, in the order
      of the steps, and each such step is reported. */
  lemma {:induction false} EmptyTopicsReported(actions: seq<string>, subs: Subscriptions, n: nat, i: nat)
    requires n <= |actions| && i < n && IsTopic(actions[i]) && subs(TopicName(actions[i])) == []
    ensures
      var place := |EmptyTopics(actions, subs, i)|;
      place < |EmptyTopics(actions, subs, n)| && EmptyTopics(actions, subs, n)[place] == TopicName(actions[i])
    decreases n
  {
    if i < n - 1 {
      EmptyTopicsReported(actions, subs, n - 1, i);
    }
  }

  lemma {:induction false} EmptyTopicsOrigin(actions: seq<string>, subs: Subscriptions, n: nat, k: nat) returns (i: nat)
    requires n <= |actions| && k < |EmptyTopics(actions, subs, n)|
    ensures i < n && k == |EmptyTopics(actions, subs, i)|
    ensures actions[i] == "topic://" + EmptyTopics(actions, subs, n)[k]
    ensures subs(EmptyTopics(actions, subs, n)[k]) == []
    decreases n
  {
    var before := EmptyTopics(actions, subs, n - 1);
    if k < |before| {
      i := EmptyTopicsOrigin(actions, subs, n - 1, k);
    } else {
      i := n - 1;
      TopicNames(actions[i], TopicName(actions[i]));
    }
  }

  /** No two branches of an expansion share a number, for any number of steps and subscribers, and
      the steps ascend. */
  lemma ExpansionDistinct(actions: seq<string>, payloads: seq<string>, subs: Subscriptions, k: nat, l: nat)
    requires k < l < |Branches(actions, payloads, subs, |actions|)|
    ensures
      var all := Branches(actions, payloads, subs, |actions|);
      && all[k].branchId != all[l].branchId
      && all[k].step.Some? && all[l].step.Some? && all[k].step.value <= all[l].step.value
  {
    var i, j, i', j' := ExpansionInOrder(actions, payloads, subs, |actions|, k, l);
    var all := Branches(actions, payloads, subs, |actions|);
    if all[k].branchId == all[l].branchId {
      StepBranchComes(actions, payloads, subs, all[k], i, j);
      StepBranchComes(actions, payloads, subs, all[l], i', j');
      FanIdInjective(i, j, |Urls(actions[i], subs)|, i', j', |Urls(actions[i'], subs)|);
    }
  }

  lemma NumberedOnce(actions: seq<string>, payloads: seq<string>, subs: Subscriptions, k: nat, m: nat)
    requires
      var all := Branches(actions, payloads, subs, |actions|);
      k < |all| && m < |all| && all[k].branchId == all[m].branchId
    ensures k == m
  {
    if m < k {
      ExpansionDistinct(actions, payloads, subs, m, k);
    } else if k < m {
      ExpansionDistinct(actions, payloads, subs, k, m);
    }
  }

  // ---------- how the driver reads the rows back ----------

  /** One persisted action row. */
  datatype Delivery = Delivery(branchId: string, succeeded: bool)

  /** The set of finished numbers that the driver collects from the rows. */
  function FinishedIds(rows: seq<Delivery>): set<string> {
    set r | r in rows && r.succeeded :: r.branchId
  }

  /** As long as every branch has its own row, in any order, looking its number up in the finished
      set tells whether that very branch is finished. */
  lemma LookupFaithful(actions: seq<string>, payloads: seq<string>, subs: Subscriptions,
                       done: seq<bool>, rows: seq<Delivery>, k: nat)
    requires
      var all := Branches(actions, payloads, subs, |actions|);
      && |done| == |all| && k < |all|
      && (forall r :: r in rows <==> exists m :: 0 <= m < |all| && r == Delivery(all[m].branchId, done[m]))
    ensures Branches(actions, payloads, subs, |actions|)[k].branchId in FinishedIds(rows) <==> done[k]
  {
    var all := Branches(actions, payloads, subs, |actions|);
    if all[k].branchId in FinishedIds(rows) {
      var r :| r in rows && r.succeeded && r.branchId == all[k].branchId;
      var m :| 0 <= m < |all| && r == Delivery(all[m].branchId, done[m]);
      NumberedOnce(actions, payloads, subs, k, m);
    }
    if done[k] {
      assert Delivery(all[k].branchId, done[k]) in rows;
    }
  }

  // ---------- rows written before fan-out existed ----------

  function WithDefaults(b: MsgBranch, i: nat): MsgBranch {
    b.(branchId := if b.branchId == "" then Pad2(i + 1) else b.branchId,
       step := if b.step == None then Some(i) else b.step)
  }

  /** Fills missing numbers and steps by position, in place. */
  method FillDefaults(list: array<MsgBranch>)
    modifies list
    ensures forall i :: 0 <= i < list.Length ==> list[i] == WithDefaults(old(list[i]), i)
  {
    for i := 0 to list.Length
      invariant forall k :: 0 <= k < i ==> list[k] == WithDefaults(old(list[k]), k)
      invariant forall k :: i <= k < list.Length ==> list[k] == old(list[k])
    {
      var b := list[i];
      if b.branchId == "" {
        b := b.(branchId := Pad2(i + 1));
      }
      if b.step == None {
        b := b.(step := Some(i));
      }
      list[i] := b;
    }
  }

  /** A branch that has a number and a step keeps them, whatever its place; so an expanded list stays as
      it is. A missing number or step is filled in by place, each on its own. */
  lemma DefaultsFillGaps(b: MsgBranch, i: nat)
    ensures b.branchId != "" && b.step.Some? ==> WithDefaults(b, i) == b
    ensures b.branchId == "" ==> WithDefaults(b, i).branchId == Pad2(i + 1)
    ensures b.step == None ==> WithDefaults(b, i).step == Some(i)
    ensures b.branchId != "" ==> WithDefaults(b, i).branchId == b.branchId
    ensures b.step.Some? ==> WithDefaults(b, i).step == b.step
    ensures WithDefaults(b, i).action == b.action && WithDefaults(b, i).payload == b.payload
  {
  }

  lemma DefaultsKeepExpansion(actions: seq<string>, payloads: seq<string>, subs: Subscriptions, k: nat, place: nat)
    requires k < |Branches(actions, payloads, subs, |actions|)|
    ensures
      var b := Branches(actions, payloads, subs, |actions|)[k];
      WithDefaults(b, place) == b
  {
    var i, j := BranchOrigin(actions, payloads, subs, |actions|, k);
  }

  /** Filling is idempotent, and gives an old list exactly the
      numbers and steps that expanding the same plain addresses gives today. */
  lemma DefaultsMatchExpansion(actions: seq<string>, payloads: seq<string>, subs: Subscriptions, i: nat)
    requires forall k :: 0 <= k < |actions| ==> !IsTopic(actions[k])
    requires i < |actions|
    ensures |Branches(actions, payloads, subs, |actions|)| == |actions|
    ensures
      var plain := MsgBranch(actions[i], PayloadOf(payloads, i), "", None);
      && WithDefaults(plain, i) == Branches(actions, payloads, subs, |actions|)[i]
      && WithDefaults(WithDefaults(plain, i), i) == WithDefaults(plain, i)
  {
    PlainBranches(actions, payloads, subs, |actions|, i);
  }

  lemma {:induction false} PlainBranches(actions: seq<string>, payloads: seq<string>, subs: Subscriptions, n: nat,
                                         i: nat)
    requires n <= |actions| && forall k :: 0 <= k < |actions| ==> !IsTopic(actions[k])
    ensures |Branches(actions, payloads, subs, n)| == n
    ensures i < n ==> Branches(actions, payloads, subs, n)[i] == MsgBranch(actions[i], PayloadOf(payloads, i),
      Pad2(i + 1), Some(i))
  {
    if n > 0 {
      PlainBranches(actions, payloads, subs, n - 1, i);
    }
  }
}
