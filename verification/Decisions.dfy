/** The advance functions: given the status a worker holds and the branch states it has just
    read, what happens next. Each `...Next` function says it in terms of where the first or last
    unfinished branch is; each method is the scan with early return that finds it. */
module Decisions {
  import opened Types

  datatype Advance =
    | CallOne(index: nat, op: BranchOp)
    | CallEach(indices: seq<nat>, op: BranchOp)
    | Finish(status: GlobalStatus)
    | RunWorkflow
    | Wait

  // ---------- where a scan stops ----------

  /** Index of the first branch that is not done, or the length if all are. */
  function FirstUnfinished(states: seq<BranchStatus>): (i: nat)
    ensures i <= |states|
    ensures forall j :: 0 <= j < i ==> states[j] == Done
    ensures i < |states| ==> states[i] != Done
  {
    if states == [] || states[0] != Done then 0 else 1 + FirstUnfinished(states[1..])
  }

  /** Index of the last branch that is not done, or -1 if all are. */
  function LastUnfinished(states: seq<BranchStatus>): (i: int)
    ensures -1 <= i < |states|
    ensures forall j :: i < j < |states| ==> states[j] == Done
    ensures i >= 0 ==> states[i] != Done
  {
    if states == [] then -1
    else if states[|states| - 1] != Done then |states| - 1
    else LastUnfinished(states[..|states| - 1])
  }

  /** Index of the last branch that is still pending, or -1; a refused one does not stop the scan. */
  function LastPending(states: seq<BranchStatus>): (i: int)
    ensures -1 <= i < |states|
    ensures forall j :: i < j < |states| ==> states[j] != Pending
    ensures i >= 0 ==> states[i] == Pending
  {
    if states == [] then -1
    else if states[|states| - 1] == Pending then |states| - 1
    else LastPending(states[..|states| - 1])
  }

  /** Those indices, in order, that belong to the given step and are not done. */
  function UnfinishedIn(step: nat, steps: seq<nat>, states: seq<BranchStatus>): (r: seq<nat>)
    requires |steps| == |states|
    ensures forall k :: k in r <==> 0 <= k < |states| && steps[k] == step && states[k] != Done
    ensures forall a :: 0 <= a < |r| ==> r[a] < |states|
    ensures forall a, b :: 0 <= a < b < |r| ==> r[a] < r[b]
  {
    if states == [] then []
    else
      var m := |states| - 1;
      var rest := UnfinishedIn(step, steps[..m], states[..m]);
      if steps[m] == step && states[m] != Done then rest + [m] else rest
  }

  lemma UnfinishedInSnoc(step: nat, steps: seq<nat>, states: seq<BranchStatus>, k: nat)
    requires k < |steps| == |states|
    ensures
      var rest := UnfinishedIn(step, steps[..k], states[..k]);
      UnfinishedIn(step, steps[..k + 1], states[..k + 1]) ==
        if steps[k] == step && states[k] != Done then rest + [k] else rest
  {
    assert steps[..k + 1][..k] == steps[..k] && states[..k + 1][..k] == states[..k];
  }

  // ---------- decisions ----------

  function SagaNext(status: GlobalStatus, actions: seq<BranchStatus>, compensates: seq<BranchStatus>): Advance {
    match status
    case Submitted =>
      var i := FirstUnfinished(actions);
      if i == |actions| then Finish(Succeed)
      else if actions[i] == Pending then CallOne(i, Action)
      else Finish(Aborting)
    case Aborting =>
      var i := LastPending(compensates);
      if i < 0 then Finish(Failed) else CallOne(i, Compensate)
    case Prepared => Wait
    case _ => Finish(status)
  }

  /** TCC and XA: same shape, and a refusal never turns the direction around. */
  function TwoPhaseNext(status: GlobalStatus, fwd: seq<BranchStatus>, bwd: seq<BranchStatus>,
                        fwdOp: BranchOp, bwdOp: BranchOp): Advance
  {
    match status
    case Submitted =>
      var i := FirstUnfinished(fwd);
      if i == |fwd| then Finish(Succeed) else CallOne(i, fwdOp)
    case Aborting =>
      var i := LastUnfinished(bwd);
      if i < 0 then Finish(Failed) else CallOne(i, bwdOp)
    case Prepared => Wait
    case _ => Finish(status)
  }

  function MsgNext(status: GlobalStatus, steps: seq<nat>, states: seq<BranchStatus>): Advance
    requires |steps| == |states|
  {
    match status
    case Submitted =>
      var i := FirstUnfinished(states);
      if i == |states| then Finish(Succeed)
      else CallEach(UnfinishedIn(steps[i], steps, states), Action)
    case Aborting => Finish(Failed)
    case Prepared => Wait
    case _ => Finish(status)
  }

  function WorkflowNext(status: GlobalStatus, compensates: seq<BranchStatus>): Advance {
    match status
    case Submitted => RunWorkflow
    case Aborting =>
      var i := LastUnfinished(compensates);
      if i < 0 then Finish(Failed) else CallOne(i, Compensate)
    case Prepared => Wait
    case _ => Finish(status)
  }

  // ---------- a scan result is determined by its two properties ----------

  lemma FirstUnfinishedUnique(states: seq<BranchStatus>, i: nat)
    requires i <= |states|
    requires forall j :: 0 <= j < i ==> states[j] == Done
    requires i < |states| ==> states[i] != Done
    ensures FirstUnfinished(states) == i
  {
  }

  lemma LastUnfinishedUnique(states: seq<BranchStatus>, i: int)
    requires -1 <= i < |states|
    requires forall j :: i < j < |states| ==> states[j] == Done
    requires i >= 0 ==> states[i] != Done
    ensures LastUnfinished(states) == i
  {
  }

  lemma LastPendingUnique(states: seq<BranchStatus>, i: int)
    requires -1 <= i < |states|
    requires forall j :: i < j < |states| ==> states[j] != Pending
    requires i >= 0 ==> states[i] == Pending
    ensures LastPending(states) == i
  {
  }

  // ---------- the decisions in terms of the rows ----------

  predicate DoneBefore(states: seq<BranchStatus>, i: int) {
    forall j :: 0 <= j < |states| && j < i ==> states[j] == Done
  }

  predicate DoneAfter(states: seq<BranchStatus>, i: int) {
    forall j :: 0 <= j < |states| && j > i ==> states[j] == Done
  }

  predicate NonePendingAfter(states: seq<BranchStatus>, i: int) {
    forall j :: 0 <= j < |states| && j > i ==> states[j] != Pending
  }

  /** A saga calls action i when everything before it is done and it is pending, and compensation i when
      it is the last that is pending; it finishes when nothing is left, turns back at a refused action
      that everything before is done, waits while prepared, and stays where it is over. */
  lemma SagaDecides(status: GlobalStatus, actions: seq<BranchStatus>, compensates: seq<BranchStatus>, i: nat,
                    op: BranchOp, to: GlobalStatus)
    ensures SagaNext(status, actions, compensates) == CallOne(i, op) <==>
            || (status == Submitted && op == Action && i < |actions| && actions[i] == Pending && DoneBefore(actions, i))
            || (status == Aborting && op == Compensate && i < |compensates| && compensates[i] == Pending
                && NonePendingAfter(compensates, i))
    ensures SagaNext(status, actions, compensates) == Finish(to) <==>
            || (status == Submitted && to == Succeed && DoneBefore(actions, |actions|))
            || (status == Submitted && to == Aborting
                && exists k :: 0 <= k < |actions| && actions[k] == Refused && DoneBefore(actions, k))
            || (status == Aborting && to == Failed && NonePendingAfter(compensates, -1))
            || (status.IsFinal() && to == status)
    ensures SagaNext(status, actions, compensates) == Wait <==> status == Prepared
  {
    var first := FirstUnfinished(actions);
    assert DoneBefore(actions, first);
  }

  /** TCC and XA call whatever is not done, refused or not: forward the first, back the last. */
  lemma TwoPhaseDecides(status: GlobalStatus, fwd: seq<BranchStatus>, bwd: seq<BranchStatus>, fwdOp: BranchOp,
                        bwdOp: BranchOp, i: nat, op: BranchOp, to: GlobalStatus)
    ensures TwoPhaseNext(status, fwd, bwd, fwdOp, bwdOp) == CallOne(i, op) <==>
            || (status == Submitted && op == fwdOp && i < |fwd| && fwd[i] != Done && DoneBefore(fwd, i))
            || (status == Aborting && op == bwdOp && i < |bwd| && bwd[i] != Done && DoneAfter(bwd, i))
    ensures TwoPhaseNext(status, fwd, bwd, fwdOp, bwdOp) == Finish(to) <==>
            || (status == Submitted && to == Succeed && DoneBefore(fwd, |fwd|))
            || (status == Aborting && to == Failed && DoneAfter(bwd, -1))
            || (status.IsFinal() && to == status)
    ensures TwoPhaseNext(status, fwd, bwd, fwdOp, bwdOp) == Wait <==> status == Prepared
  {
  }

  /** A workflow runs while it is submitted, and rolls back as TCC and XA do. */
  lemma WorkflowDecides(status: GlobalStatus, compensates: seq<BranchStatus>, i: nat, op: BranchOp, to: GlobalStatus)
    ensures WorkflowNext(status, compensates) == RunWorkflow <==> status == Submitted
    ensures WorkflowNext(status, compensates) == CallOne(i, op) <==>
            status == Aborting && op == Compensate && i < |compensates| && compensates[i] != Done
            && DoneAfter(compensates, i)
    ensures WorkflowNext(status, compensates) == Finish(to) <==>
            (status == Aborting && to == Failed && DoneAfter(compensates, -1)) || (status.IsFinal() && to == status)
    ensures WorkflowNext(status, compensates) == Wait <==> status == Prepared
  {
  }

  /** A message calls, in order, the unfinished branches of the step of its first unfinished branch; it
      has no way back. */
  lemma MsgDecides(status: GlobalStatus, steps: seq<nat>, states: seq<BranchStatus>, first: nat, to: GlobalStatus)
    requires |steps| == |states|
    ensures MsgNext(status, steps, states).CallEach? <==> status == Submitted && !DoneBefore(states, |states|)
    ensures status == Submitted && first < |states| && states[first] != Done && DoneBefore(states, first) ==>
            && MsgNext(status, steps, states).CallEach? && MsgNext(status, steps, states).op == Action
            && var idxs := MsgNext(status, steps, states).indices;
               && (forall a, b :: 0 <= a < b < |idxs| ==> idxs[a] < idxs[b])
               && forall k: nat :: k in idxs <==> k < |states| && steps[k] == steps[first] && states[k] != Done
    ensures MsgNext(status, steps, states) == Finish(to) <==>
            || (status == Submitted && to == Succeed && DoneBefore(states, |states|))
            || (status == Aborting && to == Failed)
            || (status.IsFinal() && to == status)
    ensures MsgNext(status, steps, states) == Wait <==> status == Prepared
  {
  }

  // ---------- the scans ----------

  method SagaAdvance(status: GlobalStatus, actions: seq<BranchStatus>, compensates: seq<BranchStatus>)
    returns (r: Advance)
    ensures r == SagaNext(status, actions, compensates)
  {
    match status {
      case Submitted =>
        for i := 0 to |actions|
          invariant forall j :: 0 <= j < i ==> actions[j] == Done
        {
          match actions[i] {
            case Done =>
            case Pending =>
              FirstUnfinishedUnique(actions, i);
              return CallOne(i, Action);
            case Refused =>
              FirstUnfinishedUnique(actions, i);
              return Finish(Aborting);
          }
        }
        FirstUnfinishedUnique(actions, |actions|);
        return Finish(Succeed);
      case Aborting =>
        for i := |compensates| downto 0
          invariant forall j :: i <= j < |compensates| ==> compensates[j] != Pending
        {
          if compensates[i] == Pending {
            LastPendingUnique(compensates, i);
            return CallOne(i, Compensate);
          }
        }
        LastPendingUnique(compensates, -1);
        return Finish(Failed);
      case Prepared => return Wait;
      case Succeed => return Finish(Succeed);
      case Failed => return Finish(Failed);
    }
  }

  method TwoPhaseAdvance(status: GlobalStatus, fwd: seq<BranchStatus>, bwd: seq<BranchStatus>,
                         fwdOp: BranchOp, bwdOp: BranchOp)
    returns (r: Advance)
    ensures r == TwoPhaseNext(status, fwd, bwd, fwdOp, bwdOp)
  {
    match status {
      case Prepared => return Wait;
      case Submitted =>
        for i := 0 to |fwd|
          invariant forall j :: 0 <= j < i ==> fwd[j] == Done
        {
          if fwd[i] != Done {
            FirstUnfinishedUnique(fwd, i);
            return CallOne(i, fwdOp);
          }
        }
        FirstUnfinishedUnique(fwd, |fwd|);
        return Finish(Succeed);
      case Aborting =>
        for i := |bwd| downto 0
          invariant forall j :: i <= j < |bwd| ==> bwd[j] == Done
        {
          if bwd[i] != Done {
            LastUnfinishedUnique(bwd, i);
            return CallOne(i, bwdOp);
          }
        }
        LastUnfinishedUnique(bwd, -1);
        return Finish(Failed);
      case Succeed => return Finish(Succeed);
      case Failed => return Finish(Failed);
    }
  }

  method MsgFanoutAdvance(status: GlobalStatus, steps: seq<nat>, states: seq<BranchStatus>)
    returns (r: Advance)
    requires |steps| == |states|
    ensures r == MsgNext(status, steps, states)
  {
    match status {
      case Prepared => return Wait;
      case Submitted =>
        var first := 0;
        while first < |states| && states[first] == Done
          invariant first <= |states|
          invariant forall j :: 0 <= j < first ==> states[j] == Done
        {
          first := first + 1;
        }
        FirstUnfinishedUnique(states, first);
        if first == |states| {
          return Finish(Succeed);
        }
        var step := steps[first];
        var indices: seq<nat> := [];
        for k := 0 to |states|
          invariant indices == UnfinishedIn(step, steps[..k], states[..k])
        {
          UnfinishedInSnoc(step, steps, states, k);
          if steps[k] == step && states[k] != Done {
            indices := indices + [k];
          }
        }
        assert steps[..|states|] == steps && states[..|states|] == states;
        return CallEach(indices, Action);
      case Aborting => return Finish(Failed);
      case Succeed => return Finish(Succeed);
      case Failed => return Finish(Failed);
    }
  }

  /** With one branch per step, fan-out is the plain in-order delivery. */
  lemma {:induction false} FanoutOfSingletons(steps: seq<nat>, states: seq<BranchStatus>)
    requires |steps| == |states|
    requires forall i, j :: 0 <= i < j < |steps| ==> steps[i] != steps[j]
    ensures
      var i := FirstUnfinished(states);
      MsgNext(Submitted, steps, states) == if i == |states| then Finish(Succeed) else CallEach([i], Action)
  {
    var i := FirstUnfinished(states);
    if i < |states| {
      var r := UnfinishedIn(steps[i], steps, states);
      assert i in r;
      var last := |r| - 1;
      assert r[0] in r && r[last] in r;
      assert last == 0;
      assert r == [i];
    }
  }
}
