/** The table of global transactions over whole runs: any number of transactions, created, locked,
    moved, released, submitted and woken in any order by anybody. What is here does not depend on who
    asks for what: a transaction is created once, keeps its mode, is not touched by what happens to
    others, and stays in a final status, however often its creation or submission is repeated. */
module RowLife {
  import opened Types
  import opened Rows

  datatype Event =
    | Create(gid: string, row: Row)
    | Lock(gid: string, owner: string, now: int, lease: int)
    | Move(gid: string, from: GlobalStatus, to: GlobalStatus, reason: string)
    | Release(gid: string, token: int, interval: int, now: int)
    | Submit(gid: string, owner: string, nextCron: int)
    | Wake(gid: string, now: int)
    | Retry(gid: string, interval: int, now: int)

  function Step(t: Table, e: Event): Table {
    match e
    case Create(gid, row) => CreateIn(t, gid, row).0
    case Lock(gid, owner, now, lease) =>
      if gid in t && Due(t[gid], now) then t[gid := Rows.Lock(t[gid], owner, now, lease)] else t
    case Move(gid, from, to, reason) => CompareWriteIn(t, gid, from, to, reason).0
    case Release(gid, token, interval, now) => ReleaseIn(t, gid, token, interval, now)
    case Submit(gid, owner, nextCron) => SubmitIn(t, gid, owner, nextCron).0
    case Wake(gid, now) => ScheduleNowIn(t, gid, now)
    case Retry(gid, interval, now) => ScheduleRetryIn(t, gid, interval, now)
  }

  function Exec(t: Table, events: seq<Event>): Table
    decreases |events|
  {
    if events == [] then t else Exec(Step(t, events[0]), events[1..])
  }

  /** Workers and aborting callers only ever move a transaction out of a status that is not final. */
  predicate Sensible(events: seq<Event>) {
    forall e :: e in events && e.Move? ==> !e.from.IsFinal()
  }

  // ---------- created once ----------

  /** However often a transaction is created, only the first time counts. */
  lemma {:induction false} CreatedOnce(t: Table, gid: string, events: seq<Event>)
    requires gid in t && forall e :: e in events && e.gid == gid ==> e.Create?
    ensures gid in Exec(t, events) && Exec(t, events)[gid] == t[gid]
    decreases |events|
  {
    if events != [] {
      CreatedOnce(Step(t, events[0]), gid, events[1..]);
    }
  }

  /** A transaction that is there stays there, keeps its mode, and counts its retries upwards. */
  lemma {:induction false} RowsStay(t: Table, gid: string, events: seq<Event>)
    requires gid in t
    ensures gid in Exec(t, events) && Exec(t, events)[gid].tt == t[gid].tt
    ensures Exec(t, events)[gid].retryCount >= t[gid].retryCount
    decreases |events|
  {
    if events != [] {
      RowsStay(Step(t, events[0]), gid, events[1..]);
    }
  }

  /** A final status, and the reason that goes with it, are final over all runs, whatever is created,
      submitted, locked, woken or released again. */
  lemma {:induction false} FinalStays(t: Table, gid: string, events: seq<Event>)
    requires gid in t && t[gid].status.IsFinal() && Sensible(events)
    ensures gid in Exec(t, events)
    ensures Exec(t, events)[gid].status == t[gid].status && Exec(t, events)[gid].reason == t[gid].reason
    decreases |events|
  {
    if events != [] {
      assert events[0] in events;
      FinalStays(Step(t, events[0]), gid, events[1..]);
    }
  }

  /** And a transaction that is no longer prepared is not affected by being submitted again. */
  lemma SubmittedOnce(t: Table, gid: string, owner: string, nextCron: int)
    requires gid in t
    ensures
      var t' := Step(t, Submit(gid, owner, nextCron));
      && gid in t' && t'[gid].status == (if t[gid].status == Prepared then Submitted else t[gid].status)
      && (t[gid].status != Prepared ==> t' == t)
      && forall again, later :: Step(t', Submit(gid, again, later)) == t'
  {
  }

  // ---------- transactions do not interfere ----------

  function Only(t: Table, gid: string): Table {
    if gid in t then map[gid := t[gid]] else map[]
  }

  function Mine(events: seq<Event>, gid: string): seq<Event>
    decreases |events|
  {
    if events == [] then []
    else (if events[0].gid == gid then [events[0]] else []) + Mine(events[1..], gid)
  }

  lemma StepApart(t: Table, e: Event, gid: string)
    ensures e.gid == gid ==> Only(Step(t, e), gid) == Step(Only(t, gid), e)
    ensures e.gid != gid ==> Only(Step(t, e), gid) == Only(t, gid)
  {
  }

  /** What becomes of one transaction is decided by its own events alone. */
  lemma {:induction false} EventsApart(t: Table, events: seq<Event>, gid: string)
    ensures Only(Exec(t, events), gid) == Exec(Only(t, gid), Mine(events, gid))
    decreases |events|
  {
    if events != [] {
      StepApart(t, events[0], gid);
      EventsApart(Step(t, events[0]), events[1..], gid);
      if events[0].gid == gid {
        assert Mine(events, gid)[1..] == Mine(events[1..], gid);
      } else {
        assert Mine(events, gid) == Mine(events[1..], gid);
      }
    }
  }
}
