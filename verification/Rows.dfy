/** The persisted row of a global transaction and the atomic statements on it. Both stores are
    proved against these functions; times are seconds, handed in by the caller. */
module Rows {
  import opened Types

  datatype Row = Row(
    tt: TransType,
    status: GlobalStatus,
    nextCron: int,
    interval: int,
    owner: string,
    leaseUntil: int,
    retryCount: int,
    reason: string)

  type Table = map<string, Row>

  /** The WHERE clause of the SQL scheduler. */
  predicate Due(r: Row, now: int) {
    Schedulable(r.status, r.tt) && r.nextCron <= now && r.leaseUntil <= now
  }

  /** Taking the lease also moves the next schedule to its end: the two being equal means that
      nobody has asked for the transaction since. */
  function Lock(r: Row, owner: string, now: int, lease: int): Row {
    r.(owner := owner, nextCron := now + lease, leaseUntil := now + lease)
  }

  /** Release the lease whose end is `token` and schedule the next round `interval` from now. Does
      nothing if the lease is not that one. If somebody asked for the transaction while it was
      held, that request is kept and the backoff dropped. */
  function Release(r: Row, token: int, interval: int, now: int): Row {
    if r.leaseUntil != token then r
    else
      var asked := r.nextCron < r.leaseUntil;
      r.(retryCount := r.retryCount + if interval > 0 then 1 else 0,
         interval := if asked then 0 else interval,
         nextCron := if asked then r.nextCron else now + interval,
         leaseUntil := 0)
  }

  function ScheduleNow(r: Row, now: int): Row {
    r.(nextCron := now, interval := 0)
  }

  function ScheduleRetry(r: Row, interval: int, now: int): Row {
    r.(nextCron := now + interval, interval := interval)
  }

  function SetStatus(r: Row, to: GlobalStatus, reason: string): Row {
    r.(status := to, reason := if reason != "" then reason else r.reason)
  }

  /** Move to submitted; a non-empty owner takes the lease along. */
  function SubmitRow(r: Row, owner: string, nextCron: int): Row {
    r.(status := Submitted, nextCron := nextCron, interval := 0, owner := owner,
       leaseUntil := if owner == "" then 0 else nextCron)
  }

  // ---------- statements on the table ----------

  function ReleaseIn(t: Table, gid: string, token: int, interval: int, now: int): Table {
    if gid in t then t[gid := Release(t[gid], token, interval, now)] else t
  }

  function ScheduleNowIn(t: Table, gid: string, now: int): Table {
    if gid in t then t[gid := ScheduleNow(t[gid], now)] else t
  }

  function ScheduleRetryIn(t: Table, gid: string, interval: int, now: int): Table {
    if gid in t then t[gid := ScheduleRetry(t[gid], interval, now)] else t
  }

  /** Compare and write: only while the status is still `from`. */
  function CompareWriteIn(t: Table, gid: string, from: GlobalStatus, to: GlobalStatus, reason: string): (Table, bool) {
    if gid in t && t[gid].status == from then (t[gid := SetStatus(t[gid], to, reason)], true) else (t, false)
  }

  datatype SubmitOutcome = Missing | Already | Advanced(row: Row)

  function SubmitIn(t: Table, gid: string, owner: string, nextCron: int): (Table, SubmitOutcome) {
    if gid !in t then (t, Missing)
    else if t[gid].status != Prepared then (t, Already)
    else
      var r := SubmitRow(t[gid], owner, nextCron);
      (t[gid := r], Advanced(r))
  }

  function CreateIn(t: Table, gid: string, r: Row): (Table, bool) {
    if gid in t then (t, false) else (t[gid := r], true)
  }
}
