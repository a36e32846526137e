/** The vocabulary of the coordinator: transaction modes, the status of a global transaction
    and of one branch operation, the four answers a branch can give, and the two tables over
    them that several components have to agree on. */
module Types {

  datatype Option<+T> = None | Some(value: T)

  datatype TransType = Saga | Tcc | Msg | Xa | Workflow

  datatype GlobalStatus = Prepared | Submitted | Aborting | Succeed | Failed {
    /** A final status is never scheduled again. */
    predicate IsFinal() {
      this == Succeed || this == Failed
    }
  }

  /** Where the rows are kept. */
  datatype Backend = SqlBackend | RedisBackend

  datatype BranchStatus = Pending | Done | Refused

  datatype BranchOp = Action | Compensate | Try | Confirm | Cancel | Commit | Rollback {
    /** The forward operation that a compensating operation undoes. */
    function OriginOp(): Option<BranchOp> {
      match this
      case Cancel => Some(Try)
      case Compensate => Some(Action)
      case Rollback => Some(Action)
      case _ => None
    }

    predicate IsCompensating() {
      OriginOp().Some?
    }
  }

  /** What the coordinator concludes from calling a branch. Unknown is not a failure. */
  datatype Reply = Success | Failure | Ongoing | Unknown

  /** One branch operation of the transaction, by step index. */
  datatype Call = Call(index: nat, op: BranchOp)

  /** Can somebody other than the worker change a transaction that is in this status? */
  predicate StatusContested(status: GlobalStatus, tt: TransType) {
    match status
    case Prepared => true
    case Submitted => tt == Saga || tt == Workflow
    case _ => false
  }

  /** Does the scheduler pick up transactions in this status? */
  predicate Schedulable(status: GlobalStatus, tt: TransType) {
    || status == Submitted
    || status == Aborting
    || (status == Prepared && (tt == Msg || tt == Tcc || tt == Xa))
  }

  /** What one round of `Api::abort` does after reading the status. */
  datatype AbortVerdict = Refuse | AlreadyAborting | TryWrite

  /** The guards of `Api::abort`, in the order in which they are tested. */
  function AbortGuard(status: GlobalStatus, tt: TransType): AbortVerdict {
    if status == Submitted && (tt == Tcc || tt == Xa || tt == Msg) then Refuse
    else if status.IsFinal() then Refuse
    else if status == Aborting then AlreadyAborting
    else TryWrite
  }

  /** `submit` only ever moves a prepared transaction. */
  predicate SubmitWrites(status: GlobalStatus) {
    status == Prepared
  }

  /** The table of contested statuses is exactly what the two outside writers, abort and submit,
      can move: leaving one out would let a worker overwrite an abort. */
  lemma ContestedMatchesOutsideWriters(status: GlobalStatus, tt: TransType)
    ensures StatusContested(status, tt) <==> AbortGuard(status, tt) == TryWrite || SubmitWrites(status)
  {
  }
}
