/** The SQL store: one table, every method one statement or one transaction. Its contracts are the
    reference that the Redis store is held to. */
module SqlStore {
  import opened Types
  import opened Rows

  class Store {
    var rows: Table

    constructor ()
      ensures rows == map[]
    {
      rows := map[];
    }

    /** Already existing is not an error, and does not overwrite. */
    method CreateGlobal(gid: string, r: Row) returns (created: bool)
      modifies this
      ensures (rows, created) == CreateIn(old(rows), gid, r)
      ensures created <==> gid !in old(rows)
      ensures rows == if gid in old(rows) then old(rows) else old(rows)[gid := r]
    {
      created := gid !in rows;
      if created {
        rows := rows[gid := r];
      }
    }

    /** Locks some due row; finds none only if there is none. */
    method LockOneDue(owner: string, lease: nat, now: int) returns (found: Option<string>)
      modifies this
      ensures found == None <==> forall gid :: gid in old(rows) ==> !Due(old(rows)[gid], now)
      ensures found == None ==> rows == old(rows)
      ensures found.Some? ==>
        && found.value in old(rows) && Due(old(rows)[found.value], now)
        && rows == old(rows)[found.value := Lock(old(rows)[found.value], owner, now, lease)]
    {
      if gid :| gid in rows && Due(rows[gid], now) {
        rows := rows[gid := Lock(rows[gid], owner, now, lease)];
        return Some(gid);
      }
      return None;
    }

    method Transition(gid: string, from: GlobalStatus, to: GlobalStatus, reason: string) returns (moved: bool)
      modifies this
      ensures (rows, moved) == CompareWriteIn(old(rows), gid, from, to, reason)
    {
      moved := gid in rows && rows[gid].status == from;
      if moved {
        rows := rows[gid := SetStatus(rows[gid], to, reason)];
      }
    }

    /** The assignments in the order of the SET list: each of the two conditionals reads columns
        that are only written further down. */
    method ReleaseLease(gid: string, token: int, interval: int, now: int)
      modifies this
      ensures rows == ReleaseIn(old(rows), gid, token, interval, now)
    {
      if gid in rows && rows[gid].leaseUntil == token {
        var r := rows[gid];
        r := r.(retryCount := r.retryCount + if interval > 0 then 1 else 0);
        r := r.(interval := if r.nextCron < r.leaseUntil then 0 else interval);
        r := r.(nextCron := if r.nextCron < r.leaseUntil then r.nextCron else now + interval);
        r := r.(leaseUntil := 0);
        rows := rows[gid := r];
      }
    }

    /** SELECT, then UPDATE ... AND status = prepared; undisturbed, the two act as one. The row handed
        back is patched up from what was read, and keeps its backoff. */
    method SubmitPrepared(gid: string, owner: string, nextCron: int) returns (r: SubmitOutcome)
      modifies this
      ensures rows == SubmitIn(old(rows), gid, owner, nextCron).0
      ensures r == Missing <==> gid !in old(rows)
      ensures r == Already <==> gid in old(rows) && old(rows)[gid].status != Prepared
      ensures r.Advanced? ==> r.row == rows[gid].(interval := old(rows)[gid].interval)
    {
      if gid !in rows {
        return Missing;
      }
      var g := rows[gid];
      if g.status != Prepared {
        return Already;
      }
      if rows[gid].status == Prepared {
        rows := rows[gid := SubmitRow(rows[gid], owner, nextCron)];
      }
      g := g.(status := Submitted, nextCron := nextCron, owner := owner,
              leaseUntil := if owner == "" then 0 else nextCron);
      return Advanced(g);
    }

    method ScheduleNow(gid: string, now: int)
      modifies this
      ensures rows == ScheduleNowIn(old(rows), gid, now)
    {
      if gid in rows {
        rows := rows[gid := Rows.ScheduleNow(rows[gid], now)];
      }
    }

    method ScheduleRetry(gid: string, interval: int, now: int)
      modifies this
      ensures rows == ScheduleRetryIn(old(rows), gid, interval, now)
    {
      if gid in rows {
        rows := rows[gid := Rows.ScheduleRetry(rows[gid], interval, now)];
      }
    }
  }
}
