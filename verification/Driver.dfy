/** How a worker reads branch rows: the columns of states it fills from them, and the number of
    branches it finds. The rounds that work on those columns are in Rounds. */
module Driver {
  import opened Types
  import opened BranchIds

  // ---------- branch rows ----------

  datatype BranchRow = BranchRow(id: string, op: BranchOp, status: BranchStatus)

  predicate IsRow(r: BranchRow, i: nat, ops: set<BranchOp>) {
    r.op in ops && IndexOf(r.id) == Some(i)
  }

  /** The state of branch i under these operations: the last row that parses to i, or the default. */
  function Latest(rows: seq<BranchRow>, i: nat, ops: set<BranchOp>, default: BranchStatus): BranchStatus {
    if rows == [] then default
    else if IsRow(rows[|rows| - 1], i, ops) then rows[|rows| - 1].status
    else Latest(rows[..|rows| - 1], i, ops, default)
  }

  function Column(rows: seq<BranchRow>, n: nat, ops: set<BranchOp>, default: BranchStatus): (s: seq<BranchStatus>)
    ensures |s| == n && forall i :: 0 <= i < n ==> s[i] == Latest(rows, i, ops, default)
  {
    seq(n, i requires 0 <= i < n => Latest(rows, i, ops, default))
  }

  /** One more than the highest index any row with these operations parses to, or 0. */
  function Highest(rows: seq<BranchRow>, ops: set<BranchOp>): (n: nat)
    ensures n <= MAX_BRANCH_INDEX + 1
    ensures forall k :: 0 <= k < |rows| && rows[k].op in ops && IndexOf(rows[k].id).Some? ==>
      IndexOf(rows[k].id).value < n
  {
    if rows == [] then 0
    else
      var r, m := rows[|rows| - 1], Highest(rows[..|rows| - 1], ops);
      if r.op in ops && IndexOf(r.id).Some? && IndexOf(r.id).value >= m then IndexOf(r.id).value + 1 else m
  }

  /** And no more than that: some row has the highest index. */
  lemma {:induction false} HighestIsMet(rows: seq<BranchRow>, ops: set<BranchOp>) returns (k: nat)
    requires Highest(rows, ops) > 0
    ensures k < |rows| && IsRow(rows[k], Highest(rows, ops) - 1, ops)
    decreases |rows|
  {
    var m := |rows| - 1;
    if IsRow(rows[m], Highest(rows, ops) - 1, ops) {
      k := m;
    } else {
      k := HighestIsMet(rows[..m], ops);
    }
  }

  const FORWARD: set<BranchOp> := {Action, Try}

  const BACKWARD: set<BranchOp> := {Compensate, Cancel, Rollback}

  const ALL_OPS: set<BranchOp> := {Action, Compensate, Try, Confirm, Cancel, Commit, BranchOp.Rollback}

  lemma EveryOperation(op: BranchOp)
    ensures op in ALL_OPS
  {
  }

  lemma ColumnSnoc(rows: seq<BranchRow>, k: nat, n: nat, ops: set<BranchOp>, default: BranchStatus)
    requires k < |rows|
    ensures
      var r, was := rows[k], Column(rows[..k], n, ops, default);
      Column(rows[..k + 1], n, ops, default) ==
        if r.op in ops && IndexOf(r.id).Some? && IndexOf(r.id).value < n
        then was[IndexOf(r.id).value := r.status] else was
  {
    assert rows[..k + 1][..k] == rows[..k];
  }

  method BranchStates(rows: seq<BranchRow>, n: nat) returns (actions: seq<BranchStatus>, compensates: seq<BranchStatus>)
    ensures actions == Column(rows, n, {Action, Try}, Pending)
    ensures compensates == Column(rows, n, {Compensate, Cancel, BranchOp.Rollback}, Pending)
  {
    actions, compensates := SplitByOps(rows, n, FORWARD, BACKWARD);
  }

  /** `branch_states` and `split_by_op` fill two arrays row by row. */
  method SplitByOps(rows: seq<BranchRow>, n: nat, fwd: set<BranchOp>, bwd: set<BranchOp>)
    returns (f: seq<BranchStatus>, b: seq<BranchStatus>)
    requires fwd !! bwd
    ensures f == Column(rows, n, fwd, Pending)
    ensures b == Column(rows, n, bwd, Pending)
  {
    var fs := new BranchStatus[n](_ => Pending);
    var bs := new BranchStatus[n](_ => Pending);
    for k := 0 to |rows|
      invariant fs[..] == Column(rows[..k], n, fwd, Pending)
      invariant bs[..] == Column(rows[..k], n, bwd, Pending)
    {
      ColumnSnoc(rows, k, n, fwd, Pending);
      ColumnSnoc(rows, k, n, bwd, Pending);
      var r := rows[k];
      var i := IndexOf(r.id);
      if i.Some? && i.value < n {
        if r.op in fwd {
          fs[i.value] := r.status;
        } else if r.op in bwd {
          bs[i.value] := r.status;
        }
      }
    }
    assert rows[..|rows|] == rows;
    f, b := fs[..], bs[..];
  }

  method CompensateStates(rows: seq<BranchRow>) returns (v: seq<BranchStatus>)
    ensures v == Column(rows, Highest(rows, {Compensate}), {Compensate}, Done)
  {
    var n := MaxIndex(rows, {Compensate});
    var vs := new BranchStatus[n](_ => Done);
    for k := 0 to |rows|
      invariant vs[..] == Column(rows[..k], n, {Compensate}, Done)
    {
      ColumnSnoc(rows, k, n, {Compensate}, Done);
      if rows[k].op == Compensate {
        var i := IndexOf(rows[k].id);
        if i.Some? && i.value < n {
          vs[i.value] := rows[k].status;
        }
      }
    }
    assert rows[..|rows|] == rows;
    v := vs[..];
  }

  method MaxIndex(rows: seq<BranchRow>, ops: set<BranchOp>) returns (n: nat)
    ensures n == Highest(rows, ops)
  {
    n := 0;
    for k := 0 to |rows|
      invariant n == Highest(rows[..k], ops)
    {
      assert rows[..k + 1][..k] == rows[..k];
      var i := IndexOf(rows[k].id);
      if rows[k].op in ops && i.Some? && i.value >= n {
        n := i.value + 1;
      }
    }
    assert rows[..|rows|] == rows;
  }
}
