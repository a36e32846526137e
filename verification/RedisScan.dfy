/** What the scan of the first twenty due members misses, against the SQL scheduler that finds any
    due row. */
module RedisScan {
  import opened Types
  import opened Ordering
  import opened Rows
  import opened RedisStore

  // ---------- the head is determined ----------

  /** Two heads of the same members agree, place by place. */
  lemma {:induction false} HeadsAgree(index: Scores, max: int, limit: nat, f: seq<string>, g: seq<string>, n: nat)
    requires HeadByScore(index, max, limit, f) && HeadByScore(index, max, limit, g) && n <= |f| && n <= |g|
    ensures f[..n] == g[..n]
    decreases n
  {
    if n > 0 {
      var i := n - 1;
      HeadsAgree(index, max, limit, f, g, i);
      AheadTotal(index, f[i], g[i]);
      if Ahead(index, f[i], g[i]) {
        NotAhead(index, max, limit, f, g, i);
      } else if Ahead(index, g[i], f[i]) {
        NotAhead(index, max, limit, g, f, i);
      }
    }
  }

  lemma NotAhead(index: Scores, max: int, limit: nat, f: seq<string>, g: seq<string>, i: nat)
    requires HeadByScore(index, max, limit, f) && HeadByScore(index, max, limit, g) && i < |f| && i < |g|
    requires f[..i] == g[..i]
    ensures !Ahead(index, f[i], g[i])
  {
    forall j | 0 <= j < i
      ensures f[j] == g[j]
    {
      assert f[..i][j] == g[..i][j];
    }
    AheadTotal(index, f[i], f[i]);
    AheadTotal(index, f[i], g[i]);
  }

  lemma HeadUnique(index: Scores, max: int, limit: nat, f: seq<string>, g: seq<string>)
    requires HeadByScore(index, max, limit, f) && HeadByScore(index, max, limit, g)
    ensures f == g
  {
    var n := if |f| < |g| then |f| else |g|;
    HeadsAgree(index, max, limit, f, g, n);
    if |f| < |g| {
      Longer(index, max, limit, f, g);
    } else if |g| < |f| {
      Longer(index, max, limit, g, f);
    }
  }

  lemma Longer(index: Scores, max: int, limit: nat, f: seq<string>, g: seq<string>)
    requires HeadByScore(index, max, limit, f) && HeadByScore(index, max, limit, g)
    requires |f| <= |g| && f == g[..|f|]
    ensures |g| == |f|
  {
    forall j | 0 <= j < |f|
      ensures f[j] == g[j] && !Ahead(index, g[j], g[j])
    {
      assert g[..|f|][j] == g[j];
      AheadTotal(index, g[j], g[j]);
    }
    var next := if |f| < |g| then g[|f|] else "";
    assert |f| < |g| ==> next in index && next !in f;
  }

  // ---------- what it misses ----------

  predicate Woken(rows: Table, g: string, now: int) {
    g in ScheduleIndex(rows) && rows[g].nextCron <= now && rows[g].leaseUntil > now
  }

  /** Twenty members that are due and under lease, all ahead of every free one. */
  ghost predicate Hidden(rows: Table, now: int) {
    exists leased: set<string> :: |leased| >= SCAN_LIMIT && AllAhead(rows, now, leased)
  }

  ghost predicate AllAhead(rows: Table, now: int, leased: set<string>) {
    && (forall g :: g in leased ==> Woken(rows, g, now))
    && (forall g, free :: g in leased && free in rows && Due(rows[free], now) ==> Ahead(ScheduleIndex(rows), g, free))
  }

  /** The scan finds nothing: the head of the due members is entirely under lease. */
  ghost predicate FindsNothing(rows: Table, now: int) {
    exists scanned :: HeadByScore(ScheduleIndex(rows), now, SCAN_LIMIT, scanned) && AllWoken(rows, now, scanned)
  }

  predicate AllWoken(rows: Table, now: int, scanned: seq<string>) {
    forall g :: g in scanned ==> Woken(rows, g, now)
  }

  /** The n lowest of some members, in order. */
  lemma {:induction false} PickLowest(index: Scores, members: set<string>, n: nat) returns (found: seq<string>)
    requires n <= |members| && forall g :: g in members ==> g in index
    ensures |found| == n && forall i :: 0 <= i < n ==> found[i] in members
    ensures forall i, j :: 0 <= i < j < n ==> Ahead(index, found[i], found[j])
    ensures forall g, i :: g in members && g !in found && 0 <= i < n ==> Ahead(index, found[i], g)
    decreases n
  {
    if n == 0 {
      found := [];
    } else {
      var low := LowestExists(index, members);
      var rest := PickLowest(index, members - {low}, n - 1);
      found := [low] + rest;
      forall g, i | g in members && g !in found && 0 <= i < n
        ensures Ahead(index, found[i], g)
      {
        assert g !in rest && g != found[0];
      }
    }
  }

  lemma {:induction false} DistinctMembers(s: seq<string>)
    requires forall i, j :: 0 <= i < j < |s| ==> s[i] != s[j]
    ensures |set g | g in s| == |s|
    decreases |s|
  {
    if s != [] {
      var m := |s| - 1;
      DistinctMembers(s[..m]);
      assert (set g | g in s) == (set g | g in s[..m]) + {s[m]};
    }
  }

  lemma {:induction false} MembersBound(s: seq<string>, members: set<string>)
    requires forall g :: g in members ==> g in s
    ensures |members| <= |s|
    decreases |s|
  {
    if s != [] {
      var last := s[|s| - 1];
      forall g | g in members - {last}
        ensures g in s[..|s| - 1]
      {
      }
      MembersBound(s[..|s| - 1], members - {last});
    } else {
      assert members == {};
    }
  }

  lemma Larger(a: set<string>, b: set<string>)
    requires a <= b
    ensures |a| <= |b|
  {
    assert b == a + (b - a);
  }

  /** Of the twenty lowest leased members none stands behind a free one. */
  lemma AheadOfFree(rows: Table, now: int, leased: set<string>, all: set<string>, scanned: seq<string>, free: string,
                    i: nat)
    requires |leased| >= SCAN_LIMIT && leased <= all && AllAhead(rows, now, leased)
    requires forall g :: g in all ==> Woken(rows, g, now)
    requires |scanned| == SCAN_LIMIT && i < SCAN_LIMIT && forall j :: 0 <= j < SCAN_LIMIT ==> scanned[j] in all
    requires forall j, k :: 0 <= j < k < SCAN_LIMIT ==> Ahead(ScheduleIndex(rows), scanned[j], scanned[k])
    requires forall g, j :: g in all && g !in scanned && 0 <= j < SCAN_LIMIT ==>
      Ahead(ScheduleIndex(rows), scanned[j], g)
    requires free in rows && Due(rows[free], now)
    ensures Ahead(ScheduleIndex(rows), scanned[i], free)
  {
    var index := ScheduleIndex(rows);
    AheadTotal(index, scanned[i], free);
    if Ahead(index, free, scanned[i]) {
      forall g | g in leased
        ensures g in scanned[..i]
      {
        AheadTransitive(index, g, free, scanned[i]);
        AheadTotal(index, g, scanned[i]);
        assert g in scanned;
        var j :| 0 <= j < |scanned| && scanned[j] == g;
        assert j < i && scanned[..i][j] == g;
      }
      MembersBound(scanned[..i], leased);
    }
  }

  /** A free row is due and the scan finds nothing, although SQL would find it, exactly when twenty due
      members under lease stand ahead of every free one. */
  lemma ScanMissesExactly(rows: Table, now: int)
    requires exists free :: free in rows && Due(rows[free], now)
    ensures FindsNothing(rows, now) <==> Hidden(rows, now)
  {
    if scanned :| HeadByScore(ScheduleIndex(rows), now, SCAN_LIMIT, scanned) && AllWoken(rows, now, scanned) {
      HeadHides(rows, now, scanned);
    }
    if leased: set<string> :| |leased| >= SCAN_LIMIT && AllAhead(rows, now, leased) {
      HiddenHead(rows, now, leased);
    }
  }

  lemma HeadHides(rows: Table, now: int, scanned: seq<string>)
    requires exists free :: free in rows && Due(rows[free], now)
    requires HeadByScore(ScheduleIndex(rows), now, SCAN_LIMIT, scanned) && AllWoken(rows, now, scanned)
    ensures Hidden(rows, now)
  {
    var index := ScheduleIndex(rows);
    var free :| free in rows && Due(rows[free], now);
    assert free in index && free !in scanned;
    forall i, j | 0 <= i < j < |scanned|
      ensures scanned[i] != scanned[j]
    {
      AheadTotal(index, scanned[i], scanned[j]);
    }
    DistinctMembers(scanned);
    var leased := set g | g in scanned;
    assert AllAhead(rows, now, leased);
  }

  lemma HiddenHead(rows: Table, now: int, leased: set<string>)
    requires |leased| >= SCAN_LIMIT && AllAhead(rows, now, leased)
    ensures FindsNothing(rows, now)
  {
    var index := ScheduleIndex(rows);
    var all := set g | g in rows && Woken(rows, g, now);
    assert leased <= all;
    Larger(leased, all);
    var scanned := PickLowest(index, all, SCAN_LIMIT);
    forall g, i | g in index && index[g] <= now && g !in scanned && 0 <= i < |scanned|
      ensures Ahead(index, scanned[i], g)
    {
      if g !in all {
        AheadOfFree(rows, now, leased, all, scanned, g, i);
      }
    }
    assert HeadByScore(index, now, SCAN_LIMIT, scanned);
  }

  // ---------- such a table ----------

  function Tally(k: nat): (s: string)
    ensures |s| == k
  {
    seq(k, _ => 'x')
  }

  function NewSaga(now: int): Row {
    Row(Saga, Submitted, now, 0, "", 0, 0, "")
  }

  function WokenSaga(now: int): Row {
    ScheduleNow(Lock(NewSaga(now), "worker", now, 30), now)
  }

  /** A saga is created, locked, and woken while under lease. */
  function AddWoken(rows: Table, gid: string, now: int): Table {
    var created := CreateIn(rows, gid, NewSaga(now)).0;
    if gid in created then ScheduleNowIn(created[gid := Lock(created[gid], "worker", now, 30)], gid, now) else created
  }

  /** n of them. */
  function Crowd(n: nat, now: int): Table {
    if n == 0 then map[] else AddWoken(Crowd(n - 1, now), Tally(n), now)
  }

  lemma AddWokenAdds(rows: Table, gid: string, now: int)
    requires gid !in rows
    ensures AddWoken(rows, gid, now) == rows[gid := WokenSaga(now)]
  {
  }

  lemma {:induction false} ShorterIsLess(j: nat, k: nat)
    requires j < k
    ensures Less(Tally(j), Tally(k))
  {
    if j > 0 {
      ShorterIsLess(j - 1, k - 1);
      assert Tally(j)[1..] == Tally(j - 1) && Tally(k)[1..] == Tally(k - 1);
    }
  }

  /** All of them are under lease and due, and stand before any longer name. */
  lemma {:induction false} CrowdIsWoken(n: nat, m: nat, now: int)
    requires n < m
    ensures forall g :: g in Crowd(n, now) ==> Crowd(n, now)[g] == WokenSaga(now)
    ensures forall g :: g in Crowd(n, now) ==> Less(g, Tally(m))
    ensures |Crowd(n, now).Keys| == n && Tally(m) !in Crowd(n, now)
    decreases n
  {
    LessTotal(Tally(m), Tally(m));
    if n > 0 {
      var before := Crowd(n - 1, now);
      CrowdIsWoken(n - 1, n, now);
      CrowdIsWoken(n - 1, m, now);
      ShorterIsLess(n, m);
      AddWokenAdds(before, Tally(n), now);
      OneMoreWoken(before, Crowd(n, now), n, m, now);
    }
  }

  lemma OneMoreWoken(before: Table, rows: Table, n: nat, m: nat, now: int)
    requires n > 0 && Tally(n) !in before && rows == before[Tally(n) := WokenSaga(now)]
    requires forall g :: g in before ==> before[g] == WokenSaga(now) && Less(g, Tally(m))
    requires |before.Keys| == n - 1 && Less(Tally(n), Tally(m)) && !Less(Tally(m), Tally(m))
    ensures forall g :: g in rows ==> rows[g] == WokenSaga(now) && Less(g, Tally(m))
    ensures |rows.Keys| == n && Tally(m) !in rows
  {
    assert rows.Keys == before.Keys + {Tally(n)};
  }

  /** After twenty sagas were locked and woken, a new one that is due at once is hidden from the scan,
      as long as the leases last. */
  lemma HiddenRow(now: int)
    requires now >= 0
    ensures
      var free := Tally(SCAN_LIMIT + 1);
      var rows := CreateIn(Crowd(SCAN_LIMIT, now), free, NewSaga(now)).0;
      free in rows && Due(rows[free], now) && FindsNothing(rows, now)
  {
    var crowd, free := Crowd(SCAN_LIMIT, now), Tally(SCAN_LIMIT + 1);
    CrowdIsWoken(SCAN_LIMIT, SCAN_LIMIT + 1, now);
    var rows := CreateIn(crowd, free, NewSaga(now)).0;
    assert rows == crowd[free := NewSaga(now)] && Due(rows[free], now);
    CrowdHides(rows, now, crowd.Keys, free);
    ScanMissesExactly(rows, now);
  }

  lemma CrowdHides(rows: Table, now: int, crowd: set<string>, free: string)
    requires |crowd| == SCAN_LIMIT && free !in crowd && rows.Keys == crowd + {free} && rows[free] == NewSaga(now)
    requires forall g :: g in crowd ==> rows[g] == WokenSaga(now)
    requires forall g :: g in crowd ==> Less(g, free)
    ensures Hidden(rows, now)
  {
    assert AllAhead(rows, now, crowd);
  }
}
