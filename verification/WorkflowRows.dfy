/** The compensation column that the driver reads out of a workflow's branch rows is the one the
    workflow machine decides on. */
module WorkflowRows {
  import opened Types
  import opened BranchIds
  import opened Driver
  import W = Workflow
  import R = Rounds

  ghost predicate IsUndo(rows: seq<BranchRow>, undos: W.Undos, m: int) {
    0 <= m < |rows| && exists k :: k in undos && rows[m] == BranchRow(BranchId(k), Compensate, undos[k].status)
  }

  /** The compensate rows of the table are these compensations, in any order. */
  ghost predicate Shows(rows: seq<BranchRow>, undos: W.Undos) {
    && (forall m {:trigger IsUndo(rows, undos, m)} :: 0 <= m < |rows| && rows[m].op == Compensate ==>
      IsUndo(rows, undos, m))
    && (forall k :: k in undos ==> BranchRow(BranchId(k), Compensate, undos[k].status) in rows)
  }

  lemma {:induction false} LatestIsDeciding(rows: seq<BranchRow>, i: nat, ops: set<BranchOp>, default: BranchStatus)
    ensures
      var r := R.DecidingRow(rows, i, ops);
      && Latest(rows, i, ops, default) == (if r.Some? then r.value.status else default)
      && (r.Some? ==> r.value in rows)
      && (r.None? ==> forall m :: 0 <= m < |rows| ==> !IsRow(rows[m], i, ops))
    decreases |rows|
  {
    if rows != [] && !IsRow(rows[|rows| - 1], i, ops) {
      var front := rows[..|rows| - 1];
      LatestIsDeciding(front, i, ops, default);
      forall m | R.DecidingRow(rows, i, ops).None? && 0 <= m < |rows|
        ensures !IsRow(rows[m], i, ops)
      {
        assert m < |front| ==> rows[m] == front[m];
      }
    }
  }

  lemma ShownCell(rows: seq<BranchRow>, undos: W.Undos, i: nat)
    requires Shows(rows, undos)
    ensures Latest(rows, i, {Compensate}, Done) == if i in W.Legible(undos) then undos[i].status else Done
  {
    LatestIsDeciding(rows, i, {Compensate}, Done);
    IndexOfBranchId(i);
    var r := R.DecidingRow(rows, i, {Compensate});
    if r.Some? {
      var m :| 0 <= m < |rows| && rows[m] == r.value;
      assert IsUndo(rows, undos, m);
      var k :| k in undos && r.value == BranchRow(BranchId(k), Compensate, undos[k].status);
      IndexOfBranchId(k);
    }
  }

  lemma HighestIsLegible(rows: seq<BranchRow>, undos: W.Undos)
    requires Shows(rows, undos) && Highest(rows, {Compensate}) > 0
    ensures Highest(rows, {Compensate}) - 1 in W.Legible(undos)
  {
    var j := HighestIsMet(rows, {Compensate});
    assert IsUndo(rows, undos, j);
    var k :| k in undos && rows[j] == BranchRow(BranchId(k), Compensate, undos[k].status);
    IndexOfBranchId(k);
  }

  lemma LegibleIsBelow(rows: seq<BranchRow>, undos: W.Undos, k: nat)
    requires Shows(rows, undos) && k in W.Legible(undos)
    ensures k < Highest(rows, {Compensate})
  {
    IndexOfBranchId(k);
    var r := BranchRow(BranchId(k), Compensate, undos[k].status);
    assert r in rows;
    var j :| 0 <= j < |rows| && rows[j] == r;
  }

  lemma ShownWidth(rows: seq<BranchRow>, undos: W.Undos)
    requires Shows(rows, undos)
    ensures Highest(rows, {Compensate}) == W.Width(W.Legible(undos))
  {
    var n, m := Highest(rows, {Compensate}), W.Width(W.Legible(undos));
    if n > 0 {
      HighestIsLegible(rows, undos);
    }
    if m > 0 {
      LegibleIsBelow(rows, undos, m - 1);
    }
  }

  /** So `compensate_states` hands the workflow machine its column. */
  lemma CompensationsReadBack(rows: seq<BranchRow>, undos: W.Undos)
    requires Shows(rows, undos)
    ensures Column(rows, Highest(rows, {Compensate}), {Compensate}, Done) == W.Column(undos)
  {
    ShownWidth(rows, undos);
    forall i | 0 <= i < Highest(rows, {Compensate})
      ensures Latest(rows, i, {Compensate}, Done) == W.Column(undos)[i]
    {
      ShownCell(rows, undos, i);
    }
  }
}
