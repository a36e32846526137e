/** The Redis store: a hash per transaction and a sorted set of the schedulable ones, scored by
    their next schedule. Every method keeps the sorted set equal to what the hashes say, and does
    to the rows what the SQL store does. */
module RedisStore {
  import opened Types
  import opened Rows
  import opened Ordering
  import C = Coordinator

  const SCAN_LIMIT: nat := 20

  type Scores = map<string, int>

  /** What the sorted set has to contain. */
  function ScheduleIndex(rows: Table): (index: Scores)
    ensures forall gid :: gid in index <==> gid in rows && Schedulable(rows[gid].status, rows[gid].tt)
    ensures forall gid :: gid in index ==> index[gid] == rows[gid].nextCron
  {
    map gid | gid in rows && Schedulable(rows[gid].status, rows[gid].tt) :: rows[gid].nextCron
  }

  /** What HSET makes of a status where there was no hash; every other field reads as its default. */
  function Fragment(to: GlobalStatus, reason: string): Row {
    Row(Saga, to, 0, 0, "", 0, 0, reason)
  }

  /** The status write that compares nothing. A status to be scheduled needs the row's schedule, and
      is not written where there is none. */
  function BlindWriteIn(rows: Table, gid: string, to: GlobalStatus, tt: TransType, reason: string): Table {
    if gid in rows then rows[gid := SetStatus(rows[gid], to, reason)]
    else if Schedulable(to, tt) then rows
    else rows[gid := Fragment(to, reason)]
  }

  /** One member stands before another: by score, and by bytes where scores are equal. */
  predicate Ahead(index: Scores, a: string, b: string) {
    a in index && b in index && (index[a] < index[b] || (index[a] == index[b] && Less(a, b)))
  }

  /** `found` is the head of the members scoring at most `max`, in their order, cut off at `limit`. */
  ghost predicate HeadByScore(index: Scores, max: int, limit: nat, found: seq<string>) {
    && |found| <= limit
    && (forall i :: 0 <= i < |found| ==> found[i] in index && index[found[i]] <= max)
    && (forall i, j :: 0 <= i < j < |found| ==> Ahead(index, found[i], found[j]))
    && (forall gid :: gid in index && index[gid] <= max && gid !in found ==>
          |found| == limit && forall i :: 0 <= i < |found| ==> Ahead(index, found[i], gid))
  }

  lemma AheadTotal(index: Scores, a: string, b: string)
    requires a in index && b in index
    ensures a == b || Ahead(index, a, b) || Ahead(index, b, a)
    ensures !(Ahead(index, a, b) && Ahead(index, b, a)) && !Ahead(index, a, a)
  {
    LessTotal(a, b);
    LessTotal(a, a);
  }

  lemma AheadTransitive(index: Scores, a: string, b: string, c: string)
    requires Ahead(index, a, b) && Ahead(index, b, c)
    ensures Ahead(index, a, c)
  {
    if index[a] == index[b] == index[c] {
      LessTransitive(a, b, c);
    }
  }

  predicate Lowest(index: Scores, members: set<string>, low: string) {
    low in members && forall other :: other in members && other != low ==> Ahead(index, low, other)
  }

  lemma {:induction false} LowestExists(index: Scores, members: set<string>) returns (low: string)
    requires members != {} && forall gid :: gid in members ==> gid in index
    ensures Lowest(index, members, low)
    decreases |members|
  {
    var gid :| gid in members;
    var rest := members - {gid};
    if rest == {} {
      low := gid;
      assert forall other :: other in members ==> other == gid || other in rest;
    } else {
      var best := LowestExists(index, rest);
      AheadTotal(index, gid, best);
      low := if Ahead(index, best, gid) then best else gid;
      LowerOfTwo(index, members, rest, gid, best);
    }
  }

  lemma LowerOfTwo(index: Scores, members: set<string>, rest: set<string>, gid: string, best: string)
    requires gid in members && rest == members - {gid} && Lowest(index, rest, best)
    requires Ahead(index, best, gid) || Ahead(index, gid, best)
    ensures Lowest(index, members, if Ahead(index, best, gid) then best else gid)
  {
    var low := if Ahead(index, best, gid) then best else gid;
    forall other | other in members && other != low
      ensures Ahead(index, low, other)
    {
      assert other == gid || other in rest;
      if low == gid && other != best {
        AheadTransitive(index, gid, best, other);
      }
    }
  }

  /** Everything scanned before this member is under lease. */
  ghost predicate FirstFree(rows: Table, now: int, scanned: seq<string>, gid: string) {
    exists i :: 0 <= i < |scanned| && scanned[i] == gid
                && forall j :: 0 <= j < i ==> scanned[j] in rows && rows[scanned[j]].leaseUntil > now
  }

  class Store {
    var rows: Table
    var index: Scores

    ghost predicate Valid()
      reads this
    {
      index == ScheduleIndex(rows)
    }

    constructor ()
      ensures Valid() && rows == map[]
    {
      rows, index := map[], map[];
    }

    /** ZADD or ZREM, so that the member agrees with the row just written. */
    method Reindex(gid: string)
      requires gid in rows
      modifies this`index
      ensures index == if Schedulable(rows[gid].status, rows[gid].tt) then old(index)[gid := rows[gid].nextCron]
        else old(index) - {gid}
    {
      if Schedulable(rows[gid].status, rows[gid].tt) {
        index := index[gid := rows[gid].nextCron];
      } else {
        index := index - {gid};
      }
    }

    method CreateGlobal(gid: string, r: Row) returns (created: bool)
      requires Valid()
      modifies this
      ensures Valid()
      ensures (rows, created) == CreateIn(old(rows), gid, r)
      ensures created <==> gid !in old(rows)
      ensures rows == if gid in old(rows) then old(rows) else old(rows)[gid := r]
      ensures !created ==> index == old(index)
    {
      if gid in rows {
        return false;
      }
      rows := rows[gid := r];
      Reindex(gid);
      return true;
    }

    /** The member that stands before all others. */
    method Least(members: set<string>) returns (gid: string)
      requires members != {} && forall g :: g in members ==> g in index
      ensures Lowest(index, members, gid)
    {
      ghost var low := LowestExists(index, members);
      gid :| Lowest(index, members, gid);
    }

    /** ZRANGEBYSCORE -inf max LIMIT 0 limit. */
    method RangeByScore(max: int, limit: nat) returns (found: seq<string>)
      ensures HeadByScore(index, max, limit, found)
    {
      found := [];
      var left := set gid | gid in index && index[gid] <= max;
      while |found| < limit && left != {}
        invariant |found| <= limit
        invariant forall gid :: gid in index && index[gid] <= max <==> gid in left || gid in found
        invariant forall gid :: gid in left ==> gid in index && index[gid] <= max && gid !in found
        invariant forall i :: 0 <= i < |found| ==> found[i] in index && index[found[i]] <= max
        invariant forall i, j :: 0 <= i < j < |found| ==> Ahead(index, found[i], found[j])
        invariant forall i, gid :: 0 <= i < |found| && gid in left ==> Ahead(index, found[i], gid)
        decreases left
      {
        var gid := Least(left);
        found := found + [gid];
        left := left - {gid};
      }
    }

    /** Scans the head of the due members, dropping those that turn out not to be schedulable and
        skipping those under lease, and locks the first that is free. */
    method LockOneDue(owner: string, lease: nat, now: int) returns (found: Option<string>, ghost scanned: seq<string>)
      modifies this
      ensures old(Valid()) ==> Valid()
      ensures HeadByScore(old(index), now, 20, scanned)
      ensures found == None ==> rows == old(rows)
      ensures found.Some? ==>
        && found.value in scanned && found.value in old(rows)
        && (old(Valid()) ==> Due(old(rows)[found.value], now))
        && rows == old(rows)[found.value := Lock(old(rows)[found.value], owner, now, lease)]
      ensures old(Valid()) && found.Some? ==> FirstFree(old(rows), now, scanned, found.value)
      ensures old(Valid()) ==>
        (found == None <==> forall gid :: gid in scanned ==> gid in old(rows) && old(rows)[gid].leaseUntil > now)
      ensures forall gid :: gid in old(index) && gid !in index ==>
        gid !in old(rows) || !Schedulable(old(rows)[gid].status, old(rows)[gid].tt)
    {
      var cands := RangeByScore(now, SCAN_LIMIT);
      scanned := cands;
      for i := 0 to |cands|
        invariant rows == old(rows)
        invariant old(Valid()) ==> index == old(index)
        invariant old(Valid()) ==> forall j :: 0 <= j < i ==> cands[j] in rows && rows[cands[j]].leaseUntil > now
        invariant forall gid :: gid in old(index) && gid !in index ==>
          gid !in rows || !Schedulable(rows[gid].status, rows[gid].tt)
      {
        var gid := cands[i];
        if gid !in rows || !Schedulable(rows[gid].status, rows[gid].tt) {
          index := index - {gid};
        } else if rows[gid].leaseUntil <= now {
          assert old(Valid()) ==> FirstFree(old(rows), now, scanned, cands[i]);
          rows := rows[gid := Lock(rows[gid], owner, now, lease)];
          index := index[gid := now + lease];
          return Some(gid), scanned;
        }
      }
      return None, scanned;
    }

    /** Unconditional; a status that is not scheduled is written and taken off the index without
        reading anything, even where there is no transaction. */
    method SetGlobalStatus(gid: string, to: GlobalStatus, tt: TransType, reason: string)
      requires Valid() && (gid in rows ==> rows[gid].tt == tt)
      modifies this
      ensures Valid()
      ensures rows == BlindWriteIn(old(rows), gid, to, tt, reason)
      ensures gid !in old(rows) && !Schedulable(to, tt) ==> rows[gid] == Row(Saga, to, 0, 0, "", 0, 0, reason)
    {
      if !Schedulable(to, tt) {
        rows := rows[gid := if gid in rows then SetStatus(rows[gid], to, reason) else Fragment(to, reason)];
        index := index - {gid};
      } else if gid in rows {
        rows := rows[gid := SetStatus(rows[gid], to, reason)];
        Reindex(gid);
      }
    }

    /** Compares only where somebody else could have changed the status. */
    method Transition(gid: string, from: GlobalStatus, to: GlobalStatus, tt: TransType, reason: string)
      returns (moved: bool)
      requires Valid() && (gid in rows ==> rows[gid].tt == tt)
      modifies this
      ensures Valid()
      ensures (rows, moved) ==
        if StatusContested(from, tt) then CompareWriteIn(old(rows), gid, from, to, reason)
        else (BlindWriteIn(old(rows), gid, to, tt, reason), true)
    {
      if !StatusContested(from, tt) {
        SetGlobalStatus(gid, to, tt, reason);
        return true;
      }
      if gid !in rows || rows[gid].status != from {
        return false;
      }
      rows := rows[gid := SetStatus(rows[gid], to, reason)];
      Reindex(gid);
      return true;
    }

    /** Moves the member only if it is there: a row that is not scheduled must not get back in. */
    method ReleaseLease(gid: string, token: int, interval: int, now: int)
      requires Valid()
      modifies this
      ensures Valid()
      ensures rows == ReleaseIn(old(rows), gid, token, interval, now)
    {
      if gid !in rows || rows[gid].leaseUntil != token {
        return;
      }
      var r := rows[gid];
      var newTime, newInterval := now + interval, interval;
      if r.nextCron < r.leaseUntil {
        newTime, newInterval := r.nextCron, 0;
      }
      r := r.(nextCron := newTime, interval := newInterval, leaseUntil := 0);
      if interval > 0 {
        r := r.(retryCount := r.retryCount + 1);
      }
      rows := rows[gid := r];
      if gid in index {
        index := index[gid := newTime];
      }
    }

    method SubmitPrepared(gid: string, owner: string, nextCron: int) returns (r: SubmitOutcome)
      requires Valid()
      modifies this
      ensures Valid()
      ensures (rows, r) == SubmitIn(old(rows), gid, owner, nextCron)
      ensures r == Missing <==> gid !in old(rows)
      ensures r == Already <==> gid in old(rows) && old(rows)[gid].status != Prepared
      ensures r.Advanced? ==> r.row == rows[gid]
    {
      if gid !in rows {
        return Missing;
      }
      if rows[gid].status != Prepared {
        return Already;
      }
      rows := rows[gid := SubmitRow(rows[gid], owner, nextCron)];
      if Schedulable(Submitted, rows[gid].tt) {
        index := index[gid := nextCron];
      }
      return Advanced(rows[gid]);
    }

    /** Unlike a retry, this puts a row on the index that has only now become schedulable. */
    method ScheduleNow(gid: string, now: int)
      requires Valid()
      modifies this
      ensures Valid()
      ensures rows == ScheduleNowIn(old(rows), gid, now)
    {
      if gid in rows {
        rows := rows[gid := Rows.ScheduleNow(rows[gid], now)];
        if Schedulable(rows[gid].status, rows[gid].tt) {
          index := index[gid := now];
        }
      }
    }

    method ScheduleRetry(gid: string, interval: int, now: int)
      requires Valid()
      modifies this
      ensures Valid()
      ensures rows == ScheduleRetryIn(old(rows), gid, interval, now)
    {
      if gid in rows {
        rows := rows[gid := Rows.ScheduleRetry(rows[gid], interval, now)];
        if gid in index {
          index := index[gid := now + interval];
        }
      }
    }
  }

  // ---------- against the SQL store ----------

  /** Writing without comparing leaves the same table behind as the SQL statement exactly when the
      row is in the expected status or already as it would be written, or there is no row and the
      new status is one to be scheduled. */
  lemma BlindWriteIsCompareWriteExactly(rows: Table, gid: string, from: GlobalStatus, to: GlobalStatus, tt: TransType,
                                        reason: string)
    ensures
      BlindWriteIn(rows, gid, to, tt, reason) == CompareWriteIn(rows, gid, from, to, reason).0 <==>
        if gid in rows then rows[gid].status == from || SetStatus(rows[gid], to, reason) == rows[gid]
        else Schedulable(to, tt)
  {
    var blind, compared := BlindWriteIn(rows, gid, to, tt, reason), CompareWriteIn(rows, gid, from, to, reason).0;
    if gid in rows {
      assert blind[gid] == SetStatus(rows[gid], to, reason);
      assert rows[gid := rows[gid]] == rows;
    } else if !Schedulable(to, tt) {
      assert gid in blind && gid !in compared;
    }
  }

  // ---------- against the step machine ----------

  /** What the stores do to the status of a row is what the machine of module Coordinator does: the
      status write with and without comparison, the submit, which rows can be locked, and that creating
      a row again does nothing. */
  lemma StoresMoveAsMachine(c: C.Config, rows: Table, gid: string, from: GlobalStatus, to: GlobalStatus, reason: string,
                            owner: string, nextCron: int, now: int)
    requires gid in rows && rows[gid].tt == c.tt
    ensures
      var (after, moved) :=
        if c.Shortcut() && !StatusContested(from, c.tt) then (rows[gid := SetStatus(rows[gid], to, reason)], true)
        else CompareWriteIn(rows, gid, from, to, reason);
      (after[gid].status, moved) == C.Transition(c, rows[gid].status, from, to)
    ensures
      var (after, outcome) := SubmitIn(rows, gid, owner, nextCron);
      && (outcome.Advanced? <==> SubmitWrites(rows[gid].status))
      && after[gid].status == if SubmitWrites(rows[gid].status) then Submitted else rows[gid].status
    ensures Due(rows[gid], now) ==> Schedulable(rows[gid].status, c.tt)
    ensures forall r :: CreateIn(rows, gid, r) == (rows, false)
  {
  }
}
