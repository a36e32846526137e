/** The calls of a client: submitting, aborting and retrying a transaction, on the Redis store. */
module Api {
  import opened Types
  import opened Rows
  import R = RedisStore

  // ---------- submit ----------

  /** Handed is the row that the submitter goes on to drive, if it drives itself. */
  datatype SubmitReply = BadRequest | Accepted(handed: Option<Row>)

  /** Submitting again is no error and changes nothing, except that a gid that was prepared in another
      mode is moved on as what it is. */
  function SubmitTo(t: Table, gid: string, tt: TransType, steps: nat, row: Row, owner: string, nextCron: int)
    : (Table, SubmitReply)
  {
    if gid == "" || tt == Workflow then (t, BadRequest)
    else if tt == Saga && steps > 0 && gid !in t then (t[gid := row], Accepted(Some(row)))
    else
      var (t', outcome) := SubmitIn(t, gid, owner, nextCron);
      (t', match outcome
           case Missing => BadRequest
           case Already => Accepted(None)
           case Advanced(moved) => Accepted(Some(moved)))
  }

  /** `Api::submit`: a saga is created first and asked afterwards, since that saves a round trip. */
  method Submit(store: R.Store, gid: string, tt: TransType, steps: nat, row: Row, owner: string, nextCron: int)
    returns (r: SubmitReply)
    requires store.Valid() && row.tt == Saga && row.status == Submitted
    modifies store
    ensures store.Valid()
    ensures (store.rows, r) == SubmitTo(old(store.rows), gid, tt, steps, row, owner, nextCron)
    ensures r == BadRequest <==> gid == "" || tt == Workflow || (gid !in old(store.rows) && (tt != Saga || steps == 0))
    ensures r == BadRequest ==> store.rows == old(store.rows)
    ensures gid in old(store.rows) && old(store.rows)[gid].status != Prepared ==> store.rows == old(store.rows)
  {
    if gid == "" || tt == Workflow {
      return BadRequest;
    }
    if tt == Saga && steps > 0 {
      var created := store.CreateGlobal(gid, row);
      if created {
        return Accepted(Some(row));
      }
    }
    var outcome := store.SubmitPrepared(gid, owner, nextCron);
    match outcome {
      case Missing => return BadRequest;
      case Already => return Accepted(None);
      case Advanced(moved) => return Accepted(Some(moved));
    }
  }

  /** A client that repeats its submission, with whatever arguments, gets the same table and is told that
      all is well, with nothing to drive; and what is there is never replaced. */
  lemma SubmitTwice(t: Table, gid: string, tt: TransType, steps: nat, row: Row, owner: string, nextCron: int,
                    tt': TransType, steps': nat, row': Row, owner': string, nextCron': int)
    requires row.tt == Saga && row.status == Submitted && tt' != Workflow
    requires SubmitTo(t, gid, tt, steps, row, owner, nextCron).1.Accepted?
    ensures
      var t' := SubmitTo(t, gid, tt, steps, row, owner, nextCron).0;
      && SubmitTo(t', gid, tt', steps', row', owner', nextCron') == (t', Accepted(None))
      && gid in t' && t'[gid].status != Prepared
      && (gid in t ==> t'[gid].tt == t[gid].tt && t'[gid].retryCount == t[gid].retryCount)
      && (gid in t && t[gid].status != Prepared ==> t' == t)
      && (gid !in t ==> t'[gid] == row)
  {
  }

  // ---------- abort ----------

  datatype AbortReply = Aborted | NotFound | Settled | Contended

  const ATTEMPTS: nat := 5

  /** Aborting is refused: the transaction is over, or its direction was settled when it was submitted. */
  predicate TooLate(status: GlobalStatus, tt: TransType) {
    status == Succeed || status == Failed || (status == Submitted && (tt == Tcc || tt == Xa || tt == Msg))
  }

  /** The status that the k-th attempt reads, where `moves(j)` is what somebody else writes between the
      read and the write of attempt j, if anything. */
  function Seen(status: GlobalStatus, moves: nat -> Option<GlobalStatus>, k: nat): GlobalStatus {
    if k == 0 then status
    else if moves(k - 1).Some? then moves(k - 1).value else Seen(status, moves, k - 1)
  }

  /** Attempt k wants to write and finds that somebody else has moved the row. */
  predicate Lost(status: GlobalStatus, tt: TransType, moves: nat -> Option<GlobalStatus>, k: nat) {
    && Seen(status, moves, k) != Aborting && !TooLate(Seen(status, moves, k), tt)
    && Seen(status, moves, k + 1) != Seen(status, moves, k)
  }

  /** All other transactions are as they were. */
  ghost predicate Beside(t: Table, t': Table, gid: string) {
    forall other :: other != gid ==> (other in t <==> other in t') && (other in t ==> t[other] == t'[other])
  }

  /** The second half of an attempt: compare and write, after somebody else may have written. */
  method CompareAndAbort(store: R.Store, gid: string, now: int, read: GlobalStatus, moved: Option<GlobalStatus>)
    returns (wrote: bool)
    requires store.Valid() && gid in store.rows && store.rows[gid].status == read
    requires AbortGuard(read, store.rows[gid].tt) == TryWrite
    modifies store
    ensures store.Valid() && gid in store.rows && Beside(old(store.rows), store.rows, gid)
    ensures store.rows[gid].tt == old(store.rows)[gid].tt
    ensures wrote <==> moved.None? || moved.value == read
    ensures if wrote then store.rows[gid].status == Aborting && store.rows[gid].nextCron == now
                          && store.rows[gid].interval == 0
            else store.rows[gid].status == moved.value
  {
    var tt := store.rows[gid].tt;
    if moved.Some? {
      store.SetGlobalStatus(gid, moved.value, tt, "");
    }
    wrote := store.Transition(gid, read, Aborting, tt, "aborted by the caller");
    if wrote {
      store.ScheduleNow(gid, now);
    }
  }

  /** How one attempt goes; `moved` is what somebody else writes between the read and the write. No reply
      means that the comparison was lost. */
  predicate Attempted(was: Row, row: Row, moved: Option<GlobalStatus>, now: int, r: Option<AbortReply>) {
    var meanwhile := if moved.Some? then moved.value else was.status;
    && row.tt == was.tt
    && (if TooLate(was.status, was.tt) then r == Some(Settled) && row == was
        else if was.status == Aborting then r == Some(Aborted) && row == was
        else if meanwhile != was.status then r == None && row.status == meanwhile
        else r == Some(Aborted) && row.status == Aborting && row.nextCron == now && row.interval == 0)
  }

  /** The first k attempts were lost, and the row is as they left it. */
  ghost predicate LostSoFar(was: Row, row: Row, moves: nat -> Option<GlobalStatus>, k: nat) {
    && row.tt == was.tt && row.status == Seen(was.status, moves, k)
    && forall j :: 0 <= j < k ==> Lost(was.status, was.tt, moves, j)
  }

  /** What an abort comes to, attempt k being the one that decided. It is Aborted exactly if that attempt
      read an aborting row, or wrote one, and wakes the row if it wrote; Settled exactly if it came too
      late; and after five lost comparisons it gives up. Unless it wrote, it leaves the row in the status
      that the others have given it. */
  ghost predicate Decided(was: Row, row: Row, moves: nat -> Option<GlobalStatus>, now: int, k: nat, r: AbortReply) {
    var seen := Seen(was.status, moves, k);
    && k <= 5 && (forall j :: 0 <= j < k ==> Lost(was.status, was.tt, moves, j))
    && (k < 5 ==> !Lost(was.status, was.tt, moves, k))
    && (r == Contended <==> k == 5)
    && (r == Settled <==> k < 5 && TooLate(seen, was.tt))
    && (r == Aborted <==> k < 5 && !TooLate(seen, was.tt))
    && row.tt == was.tt && row.status == (if r == Aborted then Aborting else seen)
    && (r == Aborted && seen != Aborting ==> row.nextCron == now && row.interval == 0)
  }

  lemma AttemptDecides(was: Row, read: Row, row: Row, moves: nat -> Option<GlobalStatus>, now: int, k: nat,
                       r: Option<AbortReply>)
    requires k < 5 && LostSoFar(was, read, moves, k) && Attempted(read, row, moves(k), now, r)
    ensures r.Some? ==> Decided(was, row, moves, now, k, r.value)
    ensures r.None? ==> LostSoFar(was, row, moves, k + 1)
  {
    assert Seen(was.status, moves, k + 1) == if moves(k).Some? then moves(k).value else read.status;
  }

  method Attempt(store: R.Store, gid: string, now: int, moved: Option<GlobalStatus>) returns (r: Option<AbortReply>)
    requires store.Valid() && gid in store.rows
    modifies store
    ensures store.Valid() && gid in store.rows && Beside(old(store.rows), store.rows, gid)
    ensures Attempted(old(store.rows)[gid], store.rows[gid], moved, now, r)
  {
    var read, tt := store.rows[gid].status, store.rows[gid].tt;
    match AbortGuard(read, tt) {
      case Refuse => return Some(Settled);
      case AlreadyAborting => return Some(Aborted);
      case TryWrite =>
    }
    var wrote := CompareAndAbort(store, gid, now, read, moved);
    return if wrote then Some(Aborted) else None;
  }

  /** `Api::abort`: read, judge, compare and write, and start again if the comparison was lost. */
  method Abort(store: R.Store, gid: string, now: int, moves: nat -> Option<GlobalStatus>)
    returns (r: AbortReply, ghost k: nat)
    requires store.Valid()
    modifies store
    ensures store.Valid()
    ensures r == NotFound <==> gid !in old(store.rows)
    ensures gid !in old(store.rows) ==> store.rows == old(store.rows)
    ensures gid in old(store.rows) ==>
      gid in store.rows && Decided(old(store.rows)[gid], store.rows[gid], moves, now, k, r)
    ensures Beside(old(store.rows), store.rows, gid)
  {
    k := 0;
    if gid !in store.rows {
      return NotFound, 0;
    }
    ghost var was := store.rows[gid];
    for i := 0 to ATTEMPTS
      invariant k == i && store.Valid() && gid in store.rows && LostSoFar(was, store.rows[gid], moves, i)
      invariant Beside(old(store.rows), store.rows, gid)
    {
      ghost var read := store.rows[gid];
      var reply := Attempt(store, gid, now, moves(i));
      AttemptDecides(was, read, store.rows[gid], moves, now, i, reply);
      if reply.Some? {
        return reply.value, k;
      }
      k := k + 1;
    }
    return Contended, k;
  }

  // ---------- retry ----------

  /** `Api::retry`: puts a transaction that is not over at the head of the queue. */
  method Retry(store: R.Store, gid: string, now: int) returns (found: bool, accepted: bool)
    requires store.Valid()
    modifies store
    ensures store.Valid()
    ensures found <==> gid in old(store.rows)
    ensures accepted <==> gid in old(store.rows) && old(store.rows)[gid].status != Succeed &&
                          old(store.rows)[gid].status != Failed
    ensures !accepted ==> store.rows == old(store.rows)
    ensures accepted ==>
      store.rows == old(store.rows)[gid := old(store.rows)[gid].(nextCron := now, interval := 0)]
  {
    if gid !in store.rows {
      return false, false;
    }
    if store.rows[gid].status.IsFinal() {
      return true, false;
    }
    store.ScheduleNow(gid, now);
    return true, true;
  }
}
