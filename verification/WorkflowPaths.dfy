/** Runs that take a deterministic function along given paths: one after another with a crash in
    between, or, where runs may overlap, several at a time. */
module WorkflowPaths {
  import opened Types
  import opened Workflow
  import opened WorkflowRuns
  import opened WorkflowCrashFree
  import opened WorkflowReplay

  // ---------- one branch ----------

  /** The result can be what the record says. */
  predicate Fits(recorded: Acts, k: nat, r: RunResult) {
    k in recorded && recorded[k].status == Done ==> r == Value(recorded[k].data)
  }

  /** What a run does to the rows: those from n on are untouched, names and addresses stay. */
  predicate Touched(s: State, s': State, n: nat) {
    && s' == s.(acts := s'.acts, undos := s'.undos, started := s'.started, sessions := s'.sessions,
                outputs := s'.outputs, reran := s'.reran, lost := s'.lost)
    && (forall k :: k in s.acts ==> k in s'.acts && s'.acts[k].name == s.acts[k].name)
    && (forall k :: k in s.undos ==> k in s'.undos && s'.undos[k] == s.undos[k])
    && (forall k :: k in s'.acts && k >= n ==> k in s.acts && s'.acts[k] == s.acts[k])
    && (forall k :: k in s'.undos && k >= n ==> k in s.undos)
  }

  lemma TouchedOn(s: State, mid: State, s': State, m: nat, n: nat)
    requires Touched(s, mid, m) && Touched(mid, s', n) && m <= n
    ensures Touched(s, s', n)
  {
  }

  /** The row of a branch whose body has answered. */
  predicate Answered(s: State, k: nat, r: RunResult) {
    k in s.acts ==>
      && (s.acts[k].status == Done ==> r == Value(s.acts[k].data))
      && (r == RollbackError ==> s.acts[k].status == Refused)
  }

  /** One branch with its result: only its own row changes. A body that ran leaves its answer. */
  predicate OneRow(s: State, s': State, k: nat, name: string, r: RunResult, ran: bool) {
    && Touched(s, s', k + 1)
    && (forall j :: j in s.acts && j != k ==> s'.acts[j] == s.acts[j])
    && (forall j :: j in s'.acts && j != k ==> j in s.acts)
    && (forall j :: j in s'.undos && j != k ==> j in s.undos)
    && (if ran
        then (r != RetryError ==> Answered(s', k, r))
             && (r == RetryError && k in s'.acts && s'.acts[k].status == Done ==>
               k in s.acts && s'.acts[k] == s.acts[k])
             && (k !in s.acts && k !in s.undos ==> k in s'.acts && s'.acts[k] == RowOf(name, r))
        else s'.acts == s.acts && s'.undos == s.undos)
  }

  /** One more branch on the path, run or memoised; the names agree. */
  lemma FollowOne(c: Config, p: Program, s: State, w: nat, got: seq<RunResult>, recorded: Acts, r: RunResult)
    returns (s': State)
    requires Reachable(c, s) && c.may == Runs(p) && w in s.sessions
    requires s.sessions[w] == Session(Submitted, Running(got, recorded))
    requires |got| < c.width && p(got).OpenBranch? && !r.DivergedError? && Fits(recorded, |got|, r)
    requires |got| in recorded ==> recorded[|got|].name == NameOf(p(got))
    ensures Reachable(c, s') && s'.sessions == s.sessions[w := Session(Submitted, Running(got + [r], recorded))]
    ensures OneRow(s, s', |got|, NameOf(p(got)), r, !(|got| in recorded && recorded[|got|].status == Done))
  {
    var k, d := |got|, Decl(|got|, NameOf(p(got)), UndoOf(p(got)));
    if k in recorded && recorded[k].status == Done {
      s' := Then(c, s, Branch(w, d.name, d.undo));
    } else {
      var mid := OpenOne(c, s, w, d);
      s' := AnswerBody(c, mid, w, ReplyOf(r), DataOf(r));
      OpenedAndAnswered(c.be, s, w, got, recorded, d, mid, s', r);
    }
  }

  lemma OpenedAndAnswered(be: Backend, s: State, w: nat, got: seq<RunResult>, recorded: Acts, d: Decl,
                          mid: State, s': State, r: RunResult)
    requires w in s.sessions && mid == Opened(be, s, w, got, recorded, d) && !r.DivergedError? && d.k == |got|
    requires s.sessions[w].status == Submitted && s' == StepBody(mid, w, ReplyOf(r), DataOf(r))
    ensures OneRow(s, s', d.k, d.name, r, true)
    ensures s'.sessions == s.sessions[w := Session(Submitted, Running(got + [r], recorded))]
  {
    assert ResultOf(ReplyOf(r), DataOf(r)) == r;
    var (acts, undos) := Register(be, s.acts, s.undos, d.k, d.name, d.undo);
    RegisteredAndSettled(be, s.acts, s.undos, d, r);
    assert s'.acts == Settle(acts, d.k, ReplyOf(r), DataOf(r)) && s'.undos == undos;
    assert Touched(s, s', d.k + 1);
  }

  /** Registering and settling one row, as far as the rows go. */
  lemma RegisteredAndSettled(be: Backend, acts: Acts, undos: Undos, d: Decl, r: RunResult)
    requires !r.DivergedError?
    ensures
      var (acts1, undos') := Register(be, acts, undos, d.k, d.name, d.undo);
      var acts' := Settle(acts1, d.k, ReplyOf(r), DataOf(r));
      && (forall j :: j in acts ==> j in acts' && acts'[j].name == acts[j].name && (j != d.k ==> acts'[j] == acts[j]))
      && (forall j :: j in acts' && j != d.k ==> j in acts)
      && (forall j :: j in undos ==> j in undos' && undos'[j] == undos[j])
      && (forall j :: j in undos' && j != d.k ==> j in undos)
      && (d.k in acts' && r != RetryError ==>
            (acts'[d.k].status == Done ==> r == Value(acts'[d.k].data))
            && (r == RollbackError ==> acts'[d.k].status == Refused))
      && (d.k in acts' && r == RetryError && acts'[d.k].status == Done ==> d.k in acts && acts'[d.k] == acts[d.k])
      && (d.k !in acts && d.k !in undos ==> d.k in acts' && acts'[d.k] == RowOf(d.name, r))
  {
  }

  // ---------- a whole path ----------

  /** Rows that a path can be taken along: what is stored is what it is handed. */
  predicate FitsPath(recorded: Acts, b: seq<RunResult>) {
    forall k :: k in recorded && k < |b| ==> Fits(recorded, k, b[k])
  }

  /** Where nothing was, the path leaves its own rows. */
  ghost predicate Leaves(p: Program, s: State, s': State, b: seq<RunResult>, n: nat)
    requires n <= |b|
  {
    (forall k :: 0 <= k < n ==> k !in s.acts && k !in s.undos) ==>
      forall k :: 0 <= k < n ==> k in s'.acts && s'.acts[k] == RowOf(NameOf(p(b[..k])), b[k])
  }

  /** What is handed from memory adds no compensation. */
  predicate Remembers(s: State, s': State, recorded: Acts) {
    forall k :: k in recorded && recorded[k].status == Done && k !in s.undos ==> k !in s'.undos
  }

  lemma Diverge(c: Config, p: Program, s: State, w: nat, got: seq<RunResult>, recorded: Acts) returns (s': State)
    requires Reachable(c, s) && c.may == Runs(p) && w in s.sessions && |got| < c.width && p(got).OpenBranch?
    requires s.sessions[w] == Session(Submitted, Running(got, recorded))
    requires |got| in recorded && recorded[|got|].name != NameOf(p(got))
    ensures Reachable(c, s') && s'.diverged
  {
    s' := Then(c, s, Branch(w, NameOf(p(got)), UndoOf(p(got))));
  }

  /** The worker has taken n branches of the path. */
  ghost predicate Gone(p: Program, s: State, s': State, w: nat, recorded: Acts, b: seq<RunResult>, n: nat)
    requires n <= |b|
  {
    && s'.sessions == s.sessions[w := Session(Submitted, Running(b[..n], recorded))]
    && Touched(s, s', n) && Remembers(s, s', recorded)
    && (recorded == s.acts ==> FitsPath(s'.acts, b))
    && (recorded == map[] ==> Leaves(p, s, s', b, n))
  }

  /** A worker at the top of the function takes the first n branches of a path that fits the record
      it has read; if some name does not stand, the run diverges. */
  lemma {:induction false} Follow(c: Config, p: Program, s: State, w: nat, recorded: Acts, b: seq<RunResult>, n: nat)
    returns (s': State)
    requires Reachable(c, s) && c.may == Runs(p) && w in s.sessions && n <= |b| && n <= c.width
    requires s.sessions[w] == Session(Submitted, Running([], recorded))
    requires OpensAll(p, b, n) && FitsPath(recorded, b)
    ensures Reachable(c, s') && (s'.diverged || Gone(p, s, s', w, recorded, b, n))
    ensures recorded == map[] && !s.diverged ==> !s'.diverged && Gone(p, s, s', w, recorded, b, n)
    decreases n
  {
    if n == 0 {
      s' := s;
      assert s.sessions[w := s.sessions[w]] == s.sessions;
    } else {
      var m := n - 1;
      var mid := Follow(c, p, s, w, recorded, b, m);
      if mid.diverged {
        s' := mid;
      } else {
        s' := FollowNext(c, p, s, mid, w, recorded, b, m, n);
      }
    }
  }

  lemma FollowNext(c: Config, p: Program, s: State, mid: State, w: nat, recorded: Acts, b: seq<RunResult>, m: nat,
                   n: nat)
    returns (s': State)
    requires Reachable(c, mid) && c.may == Runs(p) && n == m + 1 <= |b| && n <= c.width
    requires OpensAll(p, b, n) && FitsPath(recorded, b) && !mid.diverged && w in s.sessions
    requires Gone(p, s, mid, w, recorded, b, m)
    ensures Reachable(c, s') && (s'.diverged || Gone(p, s, s', w, recorded, b, n))
    ensures recorded == map[] ==> !s'.diverged
  {
    if m in recorded && recorded[m].name != NameOf(p(b[..m])) {
      s' := Diverge(c, p, mid, w, b[..m], recorded);
    } else {
      s' := FollowOne(c, p, mid, w, b[..m], recorded, b[m]);
      assert b[..m] + [b[m]] == b[..n];
      GoneOn(p, s, mid, s', w, recorded, b, m, n);
    }
  }

  lemma GoneOn(p: Program, s: State, mid: State, s': State, w: nat, recorded: Acts, b: seq<RunResult>, m: nat, n: nat)
    requires n == m + 1 <= |b| && w in s.sessions && Gone(p, s, mid, w, recorded, b, m)
    requires s'.sessions == mid.sessions[w := Session(Submitted, Running(b[..n], recorded))]
    requires OneRow(mid, s', m, NameOf(p(b[..m])), b[m], !(m in recorded && recorded[m].status == Done))
    ensures Gone(p, s, s', w, recorded, b, n)
  {
    Followed(p, s, mid, s', recorded, b, n);
    if recorded == s.acts {
      FitsOn(p, mid, s', recorded, b, m);
    }
  }

  lemma Followed(p: Program, s: State, mid: State, s': State, recorded: Acts, b: seq<RunResult>, n: nat)
    requires 0 < n <= |b|
    requires Touched(s, mid, n - 1) && Remembers(s, mid, recorded)
    requires recorded == map[] ==> Leaves(p, s, mid, b, n - 1)
    requires
      var k := n - 1;
      OneRow(mid, s', k, NameOf(p(b[..k])), b[k], !(k in recorded && recorded[k].status == Done))
    ensures Touched(s, s', n) && Remembers(s, s', recorded)
    ensures recorded == map[] ==> Leaves(p, s, s', b, n)
  {
    TouchedOn(s, mid, s', n - 1, n);
    RemembersOn(s, mid, s', recorded, n - 1);
    if recorded == map[] {
      LeavesOn(p, s, mid, s', b, n - 1);
    }
  }

  lemma FitsOn(p: Program, mid: State, s': State, recorded: Acts, b: seq<RunResult>, k: nat)
    requires k < |b| && FitsPath(mid.acts, b)
    requires OneRow(mid, s', k, NameOf(p(b[..k])), b[k], !(k in recorded && recorded[k].status == Done))
    ensures FitsPath(s'.acts, b)
  {
  }

  lemma RemembersOn(s: State, mid: State, s': State, recorded: Acts, k: nat)
    requires Remembers(s, mid, recorded)
    requires forall j :: j in s'.undos && j != k ==> j in mid.undos
    requires k in recorded && recorded[k].status == Done ==> s'.undos == mid.undos
    ensures Remembers(s, s', recorded)
  {
  }

  lemma LeavesOn(p: Program, s: State, mid: State, s': State, b: seq<RunResult>, k: nat)
    requires k < |b| && Leaves(p, s, mid, b, k) && Touched(s, mid, k)
    requires OneRow(mid, s', k, NameOf(p(b[..k])), b[k], true)
    ensures Leaves(p, s, s', b, k + 1)
  {
  }

  // ---------- several runners ----------

  function Fresh(n: nat): (m: map<nat, Session>)
    ensures forall w :: w in m <==> 0 <= w < n
    ensures forall w :: w in m ==> m[w] == FRESH
  {
    if n == 0 then map[] else Fresh(n - 1)[n - 1 := FRESH]
  }

  lemma {:induction false} Runners(c: Config, n: nat) returns (s: State)
    requires n > 0 && (c.overlap || n == 1)
    ensures Reachable(c, s) && s == INIT.(sessions := Fresh(n))
    decreases n
  {
    if n == 1 {
      s := OneRunner(c);
      assert s.sessions == Fresh(1);
    } else {
      s := Runners(c, n - 1);
      s := NewRunner(c, s, n - 1);
      assert s.sessions == Fresh(n);
    }
  }

  /** Rows below n are not done. */
  predicate Undone(acts: Acts, n: nat) {
    forall k :: k in acts && k < n ==> acts[k].status != Done
  }

  /** With enough runners that started before anything was stored, all rows below n are refused in
      the end: each of the runners refuses one row, the later rows first. */
  lemma {:induction false} ResetAll(c: Config, p: Program, s: State, b: seq<RunResult>, n: nat) returns (s': State)
    requires Reachable(c, s) && c.may == Runs(p) && n <= |b| && n <= c.width && OpensAll(p, b, n) && !s.diverged
    requires forall w: nat :: 1 <= w <= n ==> w in s.sessions && s.sessions[w] == FRESH
    ensures Reachable(c, s') && Touched(s, s', n) && Undone(s'.acts, n)
    ensures s'.sessions.Keys == s.sessions.Keys && forall w :: w in s.sessions && w > n ==>
      s'.sessions[w] == s.sessions[w]
    decreases n
  {
    if n == 0 {
      s' := s;
    } else {
      var k := n - 1;
      var refused := RefuseLast(c, p, s, b, n);
      s' := ResetAll(c, p, refused, b, k);
      TouchedOn2(s, refused, s', n, k);
      ResetOn(refused, s', k);
    }
  }

  /** A fresh runner goes along b and has the n-th branch refused. */
  lemma RefuseLast(c: Config, p: Program, s: State, b: seq<RunResult>, n: nat) returns (s': State)
    requires Reachable(c, s) && c.may == Runs(p) && 0 < n <= |b| && n <= c.width && OpensAll(p, b, n) && !s.diverged
    requires n in s.sessions && s.sessions[n] == FRESH
    ensures Reachable(c, s') && Touched(s, s', n) && Answered(s', n - 1, RollbackError)
    ensures n in s'.sessions && s'.sessions == s.sessions[n := s'.sessions[n]]
  {
    var k := n - 1;
    var mid := Follow(c, p, s, n, map[], b, k);
    assert p(b[..k]).OpenBranch? && |b[..k]| == k;
    s' := FollowOne(c, p, mid, n, b[..k], map[], RollbackError);
    TouchedOn(s, mid, s', k, n);
  }

  lemma TouchedOn2(s: State, mid: State, s': State, m: nat, n: nat)
    requires Touched(s, mid, m) && Touched(mid, s', n) && n <= m
    ensures Touched(s, s', m)
  {
  }

  lemma ResetOn(mid: State, s': State, k: nat)
    requires Answered(mid, k, RollbackError) && Touched(mid, s', k) && Undone(s'.acts, k)
    ensures Undone(s'.acts, k + 1)
  {
  }

  // ---------- a second path ----------

  /** A later run is at the end of path b, having read the rows from there on as they were. */
  ghost predicate At(c: Config, s: State, s': State, w: nat, recorded: Acts, b: seq<RunResult>) {
    && w in s'.sessions && s'.sessions[w] == Session(Submitted, Running(b, recorded))
    && s'.row == Submitted && Touched(s, s', |b|)
    && (forall k :: k >= |b| ==> (k in recorded <==> k in s.acts) && (k in recorded ==> recorded[k] == s.acts[k]))
  }

  /** With one runner: it crashes, and the function is run again along b. */
  lemma SecondAlone(c: Config, p: Program, s: State, b: seq<RunResult>) returns (s': State)
    requires Reachable(c, s) && c.may == Runs(p) && s.sessions.Keys == {0} && s.row == Submitted
    requires |b| <= c.width && Path(p, b) && FitsPath(s.acts, b)
    ensures Reachable(c, s')
    ensures s'.diverged ||
            (At(c, s, s', 0, s.acts, b) && s'.sessions.Keys == {0} && Remembers(s, s', s.acts) && FitsPath(s'.acts, b))
  {
    var again := Restart(c, s);
    s' := Follow(c, p, again, 0, s.acts, b, |b|);
    assert b[..|b|] == b;
    if !s'.diverged {
      assert Touched(s, s', |b|);
      assert s'.sessions.Keys == {0};
    }
  }

  lemma NewRunner(c: Config, s: State, w: nat) returns (s': State)
    requires Reachable(c, s) && c.overlap && s.row == Submitted && w !in s.sessions
    ensures Reachable(c, s') && s' == s.(sessions := s.sessions[w := Session(Submitted, Running([], s.acts))])
  {
    var locked := Then(c, s, Lock(w));
    assert locked == Put(s, w, Submitted, Reading);
    ReadStartsRun(c, locked, w);
    s' := Then(c, locked, Read(w));
    assert s'.sessions == s.sessions[w := Session(Submitted, Running([], s.acts))];
  }

  /** With more than one: the others take everything back that was stored, and a new one starts. */
  lemma SecondBeside(c: Config, p: Program, s: State, b: seq<RunResult>) returns (s': State, recorded: Acts)
    requires Reachable(c, s) && c.may == Runs(p) && c.overlap && s.row == Submitted && !s.diverged
    requires |b| <= c.width && Path(p, b) && |b| + 1 !in s.sessions
    requires forall w: nat :: 1 <= w <= |b| ==> w in s.sessions && s.sessions[w] == FRESH
    ensures Reachable(c, s') && (s'.diverged || At(c, s, s', |b| + 1, recorded, b))
  {
    var n, w := |b|, |b| + 1;
    var reset := ResetAll(c, p, s, b, n);
    recorded := reset.acts;
    var started := NewRunner(c, reset, w);
    assert FitsPath(recorded, b);
    s' := Follow(c, p, started, w, recorded, b, n);
    assert b[..n] == b;
    if !s'.diverged {
      TouchedAgain(s, reset, started, s', n);
    }
  }

  lemma TouchedAgain(s: State, reset: State, started: State, s': State, n: nat)
    requires Touched(s, reset, n) && started == reset.(sessions := started.sessions) && Touched(started, s', n)
    ensures Touched(s, s', n)
    ensures forall k :: k >= n ==> (k in reset.acts <==> k in s.acts) && (k in s.acts ==> reset.acts[k] == s.acts[k])
  {
  }
}
