/** What a deterministic workflow function can rely on when it is replayed, and exactly when. */
module WorkflowDeterminism {
  import opened Types
  import opened Workflow
  import opened WorkflowTheorems
  import opened WorkflowRuns
  import opened WorkflowCrashFree
  import opened WorkflowReplay
  import opened WorkflowPaths

  // ---------- replay is safe ----------

  /** No run is ever told that it diverged. */
  ghost predicate NeverDiverges(c: Config) {
    forall s :: Reachable(c, s) ==> !s.diverged
  }

  /** And every result a body returns has a row to go to, so that it is not asked for again. */
  ghost predicate ReplaySafe(c: Config) {
    forall s :: Reachable(c, s) ==> !s.diverged && !s.lost
  }

  /** Runner 0 is at the end of path a, and its rows are those of a; there are enough others for b. */
  lemma FirstAlong(c: Config, p: Program, a: seq<RunResult>, others: nat) returns (s: State)
    requires c.may == Runs(p) && |a| <= c.width && Path(p, a) && (c.overlap || others == 0)
    ensures Reachable(c, s) && !s.diverged && s.row == Submitted
    ensures s.sessions == Fresh(others + 1)[0 := Session(Submitted, Running(a, map[]))]
    ensures forall k :: k in s.acts <==> 0 <= k < |a|
    ensures forall k :: k in s.acts ==> s.acts[k] == RowOf(NameOf(p(a[..k])), a[k])
    ensures forall k :: k in s.undos ==> k < |a|
  {
    var start := Runners(c, others + 1);
    s := Follow(c, p, start, 0, map[], a, |a|);
    assert a[..|a|] == a;
  }

  /** A second run at the end of path b, beside or after the first one. */
  lemma SecondAlong(c: Config, p: Program, s: State, a: seq<RunResult>, b: seq<RunResult>, others: nat)
    returns (s': State, w: nat, recorded: Acts)
    requires Reachable(c, s) && c.may == Runs(p) && s.row == Submitted && !s.diverged
    requires |b| <= c.width && Path(p, b) && |a| == |b| && Related(c, a, b)
    requires s.sessions.Keys == Fresh(others + 1).Keys && others == (if c.overlap then |b| else 0)
    requires forall v: nat :: 1 <= v <= others ==> s.sessions[v] == FRESH
    requires forall k :: k in s.acts && k < |a| ==> s.acts[k] == RowOf(s.acts[k].name, a[k])
    ensures Reachable(c, s') && (s'.diverged || At(c, s, s', w, recorded, b))
  {
    if c.overlap {
      w := |b| + 1;
      s', recorded := SecondBeside(c, p, s, b);
    } else {
      w, recorded := 0, s.acts;
      assert s.sessions.Keys == {0};
      assert FitsPath(s.acts, b);
      s' := SecondAlone(c, p, s, b);
    }
  }

  /** A branch is registered on one path, and a related path gives it another name. */
  lemma OtherNameRun(c: Config, p: Program, a: seq<RunResult>, b: seq<RunResult>)
    requires c.may == Runs(p) && Opening(c, p, a) && Opening(c, p, b) && |a| == |b| && Related(c, a, b)
    requires NameOf(p(a)) != NameOf(p(b))
    ensures !NeverDiverges(c)
  {
    var k, others := |a|, if c.overlap then |b| else 0;
    var s := FirstAlong(c, p, a, others);
    var d := Decl(k, NameOf(p(a)), UndoOf(p(a)));
    var first := OpenOne(c, s, 0, d);
    assert k in first.acts && first.acts[k].name == d.name;
    var t, w, recorded := SecondAlong(c, p, first, a, b, others);
    if !t.diverged {
      NameClashes(c, p, t, w, b, recorded);
    }
  }

  lemma NameClashes(c: Config, p: Program, t: State, w: nat, b: seq<RunResult>, recorded: Acts)
    requires Reachable(c, t) && c.may == Runs(p) && Opening(c, p, b) && w in t.sessions
    requires t.sessions[w] == Session(Submitted, Running(b, recorded))
    requires |b| in recorded && recorded[|b|].name != NameOf(p(b))
    ensures !NeverDiverges(c)
  {
    var last := Diverge(c, p, t, w, b, recorded);
  }

  /** On Redis a registration is torn apart after its address was stored, and a related path declares
      another address: that body runs with no row for its result. */
  lemma OtherAddressRun(c: Config, p: Program, a: seq<RunResult>, b: seq<RunResult>)
    requires c.may == Runs(p) && Opening(c, p, a) && Opening(c, p, b) && |a| == |b| && Related(c, a, b)
    requires c.be == RedisBackend && UndoOf(p(a)).Some? && UndoOf(p(b)).Some? && UndoOf(p(a)) != UndoOf(p(b))
    ensures !ReplaySafe(c)
  {
    var others := if c.overlap then |b| else 0;
    var torn := TornAt(c, p, a, others);
    var t, w, recorded := SecondAlong(c, p, torn, a, b, others);
    if !t.diverged {
      ResultLost(c, p, t, w, b, recorded);
    }
  }

  /** The address of the next branch on path a is stored, and nothing else of it. */
  lemma TornAt(c: Config, p: Program, a: seq<RunResult>, others: nat) returns (torn: State)
    requires c.may == Runs(p) && Opening(c, p, a) && (c.overlap || others == 0)
    requires c.be == RedisBackend && UndoOf(p(a)).Some?
    ensures Reachable(c, torn) && !torn.diverged && torn.row == Submitted
    ensures torn.sessions.Keys == Fresh(others + 1).Keys && forall v: nat :: 1 <= v <= others ==>
      torn.sessions[v] == FRESH
    ensures forall k :: k in torn.acts <==> 0 <= k < |a|
    ensures forall k :: k in torn.acts ==> torn.acts[k] == RowOf(NameOf(p(a[..k])), a[k])
    ensures |a| in torn.undos && torn.undos[|a|].addr == UndoOf(p(a)).value
  {
    var s := FirstAlong(c, p, a, others);
    torn := Then(c, s, Branch(0, NameOf(p(a)), UndoOf(p(a))));
    assert torn.acts == s.acts && torn.sessions == s.sessions[0 := torn.sessions[0]];
  }

  lemma ResultLost(c: Config, p: Program, t: State, w: nat, b: seq<RunResult>, recorded: Acts)
    requires Reachable(c, t) && c.may == Runs(p) && Opening(c, p, b) && w in t.sessions
    requires t.sessions[w] == Session(Submitted, Running(b, recorded))
    requires |b| !in recorded && |b| !in t.acts && UndoClash(t.undos, |b|, UndoOf(p(b)))
    ensures !ReplaySafe(c)
  {
    var body := OpenOne(c, t, w, Decl(|b|, NameOf(p(b)), UndoOf(p(b))));
    var last := AnswerBody(c, body, w, Success, "");
    assert last.lost;
  }

  /** For any deterministic function, either backend, with or without overlap: no run diverges and no
      result is lost, exactly when any two related paths of equal length give the next branch the
      same name and, on Redis, not two addresses. Without overlap, a path is related to one that is
      handed all its values; with overlap, to any. */
  lemma ReplaySafeExactly(c: Config, p: Program)
    requires c.may == Runs(p)
    ensures ReplaySafe(c) <==> NamesAgree(c, p) && (c.be == RedisBackend ==> AddressesAgree(c, p))
  {
    if !NamesAgree(c, p) {
      var a, b :| Opening(c, p, a) && Opening(c, p, b) && |a| == |b| && Related(c, a, b) &&
        NameOf(p(a)) != NameOf(p(b));
      OtherNameRun(c, p, a, b);
    } else if c.be == RedisBackend && !AddressesAgree(c, p) {
      var a, b :| Opening(c, p, a) && Opening(c, p, b) && |a| == |b| && Related(c, a, b)
                  && UndoOf(p(a)).Some? && UndoOf(p(b)).Some? && UndoOf(p(a)) != UndoOf(p(b));
      OtherAddressRun(c, p, a, b);
    } else {
      forall s | Reachable(c, s)
        ensures !s.diverged && !s.lost
      {
        ReachableReplay(c, p, true, s);
      }
    }
  }

  /** No run diverges exactly when the names agree. On Redis with one runner the addresses have to
      agree too, or a lost result can bring about a divergence. */
  lemma NeverDivergesExactly(c: Config, p: Program)
    requires c.may == Runs(p) && (c.be == SqlBackend || c.overlap || AddressesAgree(c, p))
    ensures NeverDiverges(c) <==> NamesAgree(c, p)
  {
    if !NamesAgree(c, p) {
      var a, b :| Opening(c, p, a) && Opening(c, p, b) && |a| == |b| && Related(c, a, b) &&
        NameOf(p(a)) != NameOf(p(b));
      OtherNameRun(c, p, a, b);
    } else {
      forall s | Reachable(c, s)
        ensures !s.diverged
      {
        ReachableReplay(c, p, !c.overlap, s);
      }
    }
  }

  // ---------- like one uninterrupted run ----------

  /** Equal rows, except that a branch whose last answer was not certain may keep a refusal of an
      earlier run: both count as not done. */
  predicate SameRow(r: RunResult, row: ActRow, other: ActRow) {
    row == other || (r == RetryError && row == other.(status := row.status) && row.status != Done)
  }

  /** Rows and history are those of one uninterrupted run along the same results; more results may
      have been produced on the way, and other workers may still be about. */
  ghost predicate LikeCrashFree(c: Config, p: Program, s: State) {
    && Exec(c, INIT, WholeRun(c.be, p, s.finished)).Some?
    && Alike(s, Exec(c, INIT, WholeRun(c.be, p, s.finished)).value)
  }

  ghost predicate Alike(s: State, t: State) {
    && s == t.(acts := s.acts, outputs := s.outputs, sessions := s.sessions)
    && s.acts.Keys == t.acts.Keys
    && (forall k :: k in s.acts ==> k < |s.finished| && SameRow(s.finished[k], s.acts[k], t.acts[k]))
    && t.outputs <= s.outputs
  }

  ghost predicate AlwaysLikeCrashFree(c: Config, p: Program) {
    forall s :: Reachable(c, s) && s.row == Succeed ==> LikeCrashFree(c, p, s)
  }

  /** What an earlier path opened, the path that ends well opens as well, and with the same
      compensation; only a branch that is run again may have been without one. */
  ghost predicate Matches(p: Program, g: seq<RunResult>, a: seq<RunResult>) {
    && |g| < |a|
    && (UndoOf(p(g)) == UndoOf(p(a[..|g|])) || (UndoOf(p(g)).None? && !a[|g|].Value?))
  }

  /** No path opens anything that a related path to the end does not. */
  ghost predicate OneStory(c: Config, p: Program) {
    forall g, a :: Opening(c, p, g) && Completed(c, p, a) && Related(c, g, a) ==> !c.overlap && Matches(p, g, a)
  }

  ghost predicate Agreeing(c: Config, p: Program) {
    NamesAgree(c, p) && (c.be == RedisBackend ==> AddressesAgree(c, p))
  }

  // ---------- if the function tells one story ----------

  lemma PrefixOpens(c: Config, p: Program, a: seq<RunResult>, k: nat)
    requires Path(p, a) && |a| <= c.width && k < |a|
    ensures Opening(c, p, a[..k])
  {
    forall i | 0 <= i < k
      ensures p(a[..k][..i]).OpenBranch? && !a[..k][i].DivergedError?
    {
      assert a[..k][..i] == a[..i];
    }
  }

  lemma RepeatsPrefix(c: Config, g: seq<RunResult>, a: seq<RunResult>, k: nat)
    requires Related(c, g, a) && k <= |a|
    ensures Related(c, g, a[..k])
  {
  }

  /** The row of a branch on the path of a succeeded transaction. */
  lemma PathRow(c: Config, p: Program, s: State, k: nat)
    requires ReplayInv(c, p, true, s) && !c.overlap && NamesAgree(c, p) && s.row == Succeed && k < |s.finished|
    ensures
      var a := s.finished;
      && k in s.acts && s.acts[k].name == NameOf(p(a[..k]))
      && SameRow(a[k], s.acts[k], RowOf(NameOf(p(a[..k])), a[k]))
      && (a[k].Value? ==> Output(k, a[k].data) in s.outputs)
  {
    var a := s.finished;
    assert MirroredAt(p, s, a, k);
    assert ActFrom(c, p, s, k, s.acts[k].name);
    var g :| Source(c, p, s.acts, g, k) && NameOf(p(g)) == s.acts[k].name &&
      Secured(s.undos, s.started, k, UndoOf(p(g)));
    KeptIsRepeated(c, p, s, g, a);
    PrefixOpens(c, p, a, k);
    RepeatsPrefix(c, g, a, k);
    assert !a[k].DivergedError?;
  }

  /** What a stored address or a promise says is what the path says. */
  lemma PathAddress(c: Config, p: Program, s: State, k: nat, addr: string)
    requires ReplayInv(c, p, true, s) && !c.overlap && OneStory(c, p) && s.row == Succeed
    requires AddressFrom(c, p, s.acts, k, addr)
    ensures k < |s.finished| && UndoOf(p(s.finished[..k])) == Some(addr)
  {
    var g :| Source(c, p, s.acts, g, k) && UndoOf(p(g)) == Some(addr);
    KeptIsRepeated(c, p, s, g, s.finished);
    assert Matches(p, g, s.finished);
  }

  /** And what the path says is stored and was promised. */
  lemma PathSecured(c: Config, p: Program, s: State, k: nat)
    requires ReplayInv(c, p, true, s) && !c.overlap && OneStory(c, p) && s.row == Succeed && k < |s.finished|
    ensures Secured(s.undos, s.started, k, UndoOf(p(s.finished[..k])))
  {
    var a := s.finished;
    assert MirroredAt(p, s, a, k);
    if a[k].Value? {
      assert ActFrom(c, p, s, k, s.acts[k].name);
      var g :| Source(c, p, s.acts, g, k) && NameOf(p(g)) == s.acts[k].name &&
        Secured(s.undos, s.started, k, UndoOf(p(g)));
      KeptIsRepeated(c, p, s, g, a);
      assert Matches(p, g, a);
    }
  }

  lemma NothingBeyond(c: Config, p: Program, s: State, k: nat)
    requires ReplayInv(c, p, true, s) && !c.overlap && OneStory(c, p) && s.row == Succeed && k in s.acts
    ensures k < |s.finished|
  {
    assert ActFrom(c, p, s, k, s.acts[k].name);
    var g :| Source(c, p, s.acts, g, k) && NameOf(p(g)) == s.acts[k].name &&
      Secured(s.undos, s.started, k, UndoOf(p(g)));
    KeptIsRepeated(c, p, s, g, s.finished);
    assert Matches(p, g, s.finished);
  }

  lemma SucceededLikeCrashFree(c: Config, p: Program, s: State)
    requires c.may == Runs(p) && Agreeing(c, p) && OneStory(c, p) && Reachable(c, s) && s.row == Succeed
    ensures LikeCrashFree(c, p, s)
  {
    ReachableReplay(c, p, true, s);
    WholeRunFinishes(c, p, s.finished);
    var t := Exec(c, INIT, WholeRun(c.be, p, s.finished)).value;
    if c.overlap {
      NobodyOpens(c, p, s, t);
    } else {
      SameState(c, p, s, t);
    }
  }

  lemma SameState(c: Config, p: Program, s: State, t: State)
    requires !c.overlap && NamesAgree(c, p) && OneStory(c, p) && Inv(s) && ReplayInv(c, p, true, s) && s.row == Succeed
    requires t.row == Succeed && t.finished == s.finished && After(p, s.finished, |s.finished|, t)
    ensures Alike(s, t)
  {
    assert s.undoAcked == {} && s.undoCalled == {};
    SameActs(c, p, s, t);
    SameUndos(c, p, s, t);
    SameStarted(c, p, s, t);
  }

  lemma SameActs(c: Config, p: Program, s: State, t: State)
    requires !c.overlap && NamesAgree(c, p) && OneStory(c, p) && ReplayInv(c, p, true, s) && s.row == Succeed
    requires After(p, s.finished, |s.finished|, t)
    ensures s.acts.Keys == t.acts.Keys && t.outputs <= s.outputs
    ensures forall k :: k in s.acts ==> k < |s.finished| && SameRow(s.finished[k], s.acts[k], t.acts[k])
  {
    forall k | k in s.acts
      ensures k < |s.finished|
    {
      NothingBeyond(c, p, s, k);
    }
    forall k | 0 <= k < |s.finished|
      ensures k in s.acts && SameRow(s.finished[k], s.acts[k], t.acts[k])
      ensures s.finished[k].Value? ==> Output(k, s.finished[k].data) in s.outputs
    {
      PathRow(c, p, s, k);
    }
    assert forall o :: o in t.outputs ==> o == Output(o.k, s.finished[o.k].data);
  }

  lemma SameUndos(c: Config, p: Program, s: State, t: State)
    requires !c.overlap && OneStory(c, p) && Inv(s) && ReplayInv(c, p, true, s) && s.row == Succeed
    requires After(p, s.finished, |s.finished|, t)
    ensures s.undos == t.undos
  {
    assert s.undoAcked == {};
    forall k | k in s.undos
      ensures k in t.undos && t.undos[k] == s.undos[k]
    {
      PathAddress(c, p, s, k, s.undos[k].addr);
    }
    forall k | k in t.undos
      ensures k in s.undos
    {
      PathSecured(c, p, s, k);
    }
  }

  lemma SameStarted(c: Config, p: Program, s: State, t: State)
    requires !c.overlap && OneStory(c, p) && ReplayInv(c, p, true, s) && s.row == Succeed
    requires After(p, s.finished, |s.finished|, t) && s.undos == t.undos
    ensures s.started == t.started
  {
    forall x | x in s.started
      ensures x in t.started
    {
      PathAddress(c, p, s, x.k, x.addr);
    }
    forall x | x in t.started
      ensures x in s.started
    {
      PathSecured(c, p, s, x.k);
    }
  }

  /** With overlap, telling one story means opening nothing at all. */
  lemma NobodyOpens(c: Config, p: Program, s: State, t: State)
    requires c.overlap && OneStory(c, p) && Reachable(c, s) && ReplayInv(c, p, true, s) && s.row == Succeed
    requires t.row == Succeed && t.finished == s.finished && After(p, s.finished, |s.finished|, t)
    ensures Alike(s, t)
  {
    ReachableLoose(c, s);
    assert forall g :: Opening(c, p, g) ==> !Related(c, g, s.finished);
    if s.finished != [] {
      PrefixOpens(c, p, s.finished, 0);
    }
    assert s.acts == map[] && s.undos == map[] && s.started == {};
  }

  // ---------- if it tells two ----------

  /** The only worker's function returns, and the transaction succeeds. */
  lemma RunEndsWell(c: Config, s: State, w: nat, a: seq<RunResult>, recorded: Acts) returns (s': State)
    requires Reachable(c, s) && s.row == Submitted && w in s.sessions && Allows(c.may, a, Return)
    requires s.sessions[w] == Session(Submitted, Running(a, recorded))
    ensures Reachable(c, s') && s' == s.(row := Succeed, sessions := s.sessions - {w}, finished := a)
  {
    var mid := Then(c, s, Ends(w));
    assert mid.sessions == s.sessions[w := Session(Submitted, Deciding(Succeed, a))];
    s' := Then(c, mid, Write(w));
    assert s'.sessions == s.sessions - {w};
  }

  /** One runner opens a branch on path g, is interrupted, and ends well along a path that does not
      match. */
  lemma TwoStoriesRun(c: Config, p: Program, g: seq<RunResult>, a: seq<RunResult>)
    requires c.may == Runs(p) && !c.overlap && Opening(c, p, g) && Completed(c, p, a) && Repeats(g, a)
    requires !Matches(p, g, a)
    ensures !(ReplaySafe(c) && AlwaysLikeCrashFree(c, p))
  {
    var first := InterruptedAt(c, p, g, a);
    var t := SecondAlone(c, p, first, a);
    if !t.diverged {
      var last := RunEndsWell(c, t, 0, a, first.acts);
      OffThePath(c, p, last, g, a);
    }
  }

  /** The branch was opened on path g, and where it lacks a compensation and path a is handed a value
      for it, that value was stored. */
  lemma InterruptedAt(c: Config, p: Program, g: seq<RunResult>, a: seq<RunResult>) returns (first: State)
    requires c.may == Runs(p) && !c.overlap && Opening(c, p, g) && Repeats(g, a)
    ensures Reachable(c, first) && first.sessions.Keys == {0} && first.row == Submitted && FitsPath(first.acts, a)
    ensures
      var k, undo := |g|, UndoOf(p(g));
      && k in first.acts
      && (undo.Some? ==> k in first.undos && first.undos[k].addr == undo.value)
      && (undo.None? ==> k !in first.undos)
      && (undo.None? && k < |a| && a[k].Value? ==> first.acts[k].status == Done)
  {
    var k := |g|;
    var s := FirstAlong(c, p, g, 0);
    assert s.sessions.Keys == {0};
    var d := Decl(k, NameOf(p(g)), UndoOf(p(g)));
    first := OpenOne(c, s, 0, d);
    if k < |a| && d.undo.None? && a[k].Value? {
      first := AnswerBody(c, first, 0, Success, a[k].data);
    }
  }

  /** Such a state is not that of the uninterrupted run. */
  lemma OffThePath(c: Config, p: Program, s: State, g: seq<RunResult>, a: seq<RunResult>)
    requires c.may == Runs(p) && Completed(c, p, a) && s.finished == a && !Matches(p, g, a) && p(g).OpenBranch?
    requires
      var k := |g|;
      && k in s.acts
      && (UndoOf(p(g)).Some? ==> k in s.undos && s.undos[k].addr == UndoOf(p(g)).value)
      && (UndoOf(p(g)).None? && k < |a| && a[k].Value? ==> k !in s.undos)
    ensures !LikeCrashFree(c, p, s)
  {
    WholeRunFinishes(c, p, a);
    var t := Exec(c, INIT, WholeRun(c.be, p, a)).value;
    var k := |g|;
    if k < |a| {
      assert k in t.undos <==> UndoOf(p(a[..k])).Some?;
      assert k in t.undos ==> t.undos[k].addr == UndoOf(p(a[..k])).value;
    }
  }

  /** With overlap: one runner ends well, and the other opens the first branch again. */
  lemma OpenedAfterwardsRun(c: Config, p: Program, g: seq<RunResult>, a: seq<RunResult>)
    requires c.may == Runs(p) && c.overlap && Opening(c, p, g) && Completed(c, p, a)
    ensures !AlwaysLikeCrashFree(c, p)
  {
    FirstOpens(c, p, g, a);
    var s := FirstAlong(c, p, a, 1);
    assert s.sessions == map[0 := Session(Submitted, Running(a, map[])), 1 := FRESH];
    var ended := RunEndsWell(c, s, 0, a, map[]);
    assert ended.sessions[1] == FRESH;
    var d := Decl(0, NameOf(p([])), UndoOf(p([])));
    var body := OpenOne(c, ended, 1, d);
    var last := AnswerBody(c, body, 1, Success, "");
    assert a[..0] == [];
    RunAgain(c, p, ended, last, a);
  }

  lemma FirstOpens(c: Config, p: Program, g: seq<RunResult>, a: seq<RunResult>)
    requires Opening(c, p, g) && Completed(c, p, a)
    ensures Opening(c, p, []) && a != []
  {
    if g != [] {
      PrefixOpens(c, p, g, 0);
      assert g[..0] == [];
    }
  }

  lemma RunAgain(c: Config, p: Program, ended: State, s: State, a: seq<RunResult>)
    requires c.may == Runs(p) && Completed(c, p, a) && a != [] && s.finished == a
    requires 0 in ended.acts && ended.acts[0] == RowOf(NameOf(p(a[..0])), a[0])
    requires 0 in s.acts && s.acts[0].status == Done && (ended.acts[0].status == Done ==> s.reran)
    ensures !LikeCrashFree(c, p, s)
  {
    WholeRunFinishes(c, p, a);
  }

  // ---------- exactly for which functions ----------

  /** For any deterministic function, either backend, with or without overlap: replay is safe and a
      succeeded transaction is in the state of one uninterrupted run with the same results, exactly
      when related paths agree and no path opens anything that a related path to the end does not. */
  lemma FaithfulExactly(c: Config, p: Program)
    requires c.may == Runs(p)
    ensures ReplaySafe(c) && AlwaysLikeCrashFree(c, p) <==> Agreeing(c, p) && OneStory(c, p)
  {
    ReplaySafeExactly(c, p);
    if Agreeing(c, p) && OneStory(c, p) {
      forall s | Reachable(c, s) && s.row == Succeed
        ensures LikeCrashFree(c, p, s)
      {
        SucceededLikeCrashFree(c, p, s);
      }
    } else if Agreeing(c, p) {
      var g, a :| Opening(c, p, g) && Completed(c, p, a) && Related(c, g, a) && (c.overlap || !Matches(p, g, a));
      if c.overlap {
        OpenedAfterwardsRun(c, p, g, a);
      } else {
        TwoStoriesRun(c, p, g, a);
      }
    }
  }

  // ---------- functions that stop at an error ----------

  predicate AllValues(got: seq<RunResult>) {
    forall i :: 0 <= i < |got| ==> got[i].Value?
  }

  /** The function opens no branch after one that returned an error, as with `?` in Rust. It may
      still end well. */
  ghost predicate StopsAtError(p: Program) {
    forall got :: p(got).OpenBranch? ==> AllValues(got)
  }

  /** With one runner such a function can rely on everything. */
  lemma StoppingIsFaithful(c: Config, p: Program)
    requires c.may == Runs(p) && !c.overlap && StopsAtError(p)
    ensures ReplaySafe(c) && AlwaysLikeCrashFree(c, p)
  {
    forall a, b | Opening(c, p, a) && |a| == |b| && Repeats(a, b)
      ensures a == b
    {
      assert AllValues(a);
    }
    forall g, a | Opening(c, p, g) && Completed(c, p, a) && Repeats(g, a)
      ensures Matches(p, g, a)
    {
      StopsBefore(c, p, g, a);
    }
    FaithfulExactly(c, p);
  }

  lemma StopsBefore(c: Config, p: Program, g: seq<RunResult>, a: seq<RunResult>)
    requires StopsAtError(p) && Opening(c, p, g) && Completed(c, p, a) && Repeats(g, a)
    ensures |g| < |a| && a[..|g|] == g
  {
    var n := if |g| < |a| then |g| else |a|;
    assert AllValues(g) && g[..|g|] == g && a[..|a|] == a;
    assert a[..n] == g[..n];
  }

  /** As a class: every function that stops at errors, or with `handles` every function at all, can
      rely on replay exactly without overlap and without functions that go on after an error. */
  lemma ClassFaithfulExactly(be: Backend, overlap: bool, handles: bool)
    ensures
      (forall p, width: nat ::
         var c := Config(be, overlap, width, Runs(p));
         (handles || StopsAtError(p)) ==> ReplaySafe(c) && AlwaysLikeCrashFree(c, p))
      <==> !overlap && !handles
  {
    if handles {
      HandlerFails(Config(be, overlap, 2, Runs(Handler)));
    } else if overlap {
      FickleFails(Config(be, overlap, 2, Runs(Fickle)));
    } else {
      forall p, width: nat | StopsAtError(p)
        ensures var c := Config(be, overlap, width, Runs(p)); ReplaySafe(c) && AlwaysLikeCrashFree(c, p)
      {
        StoppingIsFaithful(Config(be, overlap, width, Runs(p)), p);
      }
    }
  }

  // ---------- examples ----------

  /** Opens A; after "x" B, after a failure C, and then it ends well. */
  function Handler(got: seq<RunResult>): Next {
    if got == [] then OpenBranch("A", None)
    else if got == [Value("x")] then OpenBranch("B", None)
    else if got == [RollbackError] then OpenBranch("C", None)
    else Return
  }

  /** A is refused, C is opened instead; after a crash A answers, and the function opens B where C is
      on record, or ends well with C left behind. */
  lemma HandlerFails(c: Config)
    requires c.width >= 2 && c.may == Runs(Handler)
    ensures !NeverDiverges(c) && !(ReplaySafe(c) && AlwaysLikeCrashFree(c, Handler))
  {
    var g, b, a := [RollbackError], [Value("x")], [Value("y")];
    assert g[..0] == [] && b[..0] == [] && a[..0] == [];
    assert Opening(c, Handler, g) && Opening(c, Handler, b) && Completed(c, Handler, a);
    OtherNameRun(c, Handler, g, b);
    if !c.overlap {
      TwoStoriesRun(c, Handler, g, a);
    }
  }

  /** Opens A; after "x" B, after "y" C, and then it ends well. It stops at errors. */
  function Fickle(got: seq<RunResult>): Next {
    if got == [] then OpenBranch("A", None)
    else if got == [Value("x")] then OpenBranch("B", None)
    else if got == [Value("y")] then OpenBranch("C", None)
    else Return
  }

  lemma FickleFails(c: Config)
    requires c.width >= 2 && c.overlap && c.may == Runs(Fickle)
    ensures StopsAtError(Fickle) && !NeverDiverges(c)
  {
    var a, b := [Value("x")], [Value("y")];
    assert a[..0] == [] && b[..0] == [];
    assert Opening(c, Fickle, a) && Opening(c, Fickle, b);
    OtherNameRun(c, Fickle, a, b);
  }

  /** The address of the second branch depends on an error of the first, the name of the third on the
      result of the second. */
  function Torn(got: seq<RunResult>): Next {
    if |got| == 0 then OpenBranch("P", None)
    else if |got| == 1 then OpenBranch("A", Some(if got[0].Value? then "u2" else "u1"))
    else if |got| == 2 && got[1].Value? then OpenBranch(got[1].data, None)
    else Return
  }

  /** Names agree, and yet it diverges on Redis with one runner. The address u1 is stored, and a crash
      keeps the row of A out; then P answers, u2 is declared and clashes, and the result of A has no
      row to go to. The next run gets another result for A, and another name after it. */
  lemma TornDiverges(c: Config)
    requires c.be == RedisBackend && !c.overlap && c.width >= 3 && c.may == Runs(Torn)
    ensures NamesAgree(c, Torn) && !NeverDiverges(c)
  {
    var torn := TornApart(c);
    var t := SecondAlone(c, Torn, torn, [Value("v")]);
    if !t.diverged {
      assert t.sessions == map[0 := t.sessions[0]];
      assert Fits(t.acts, 0, Value("v"));
      TornAgain(c, t, torn.acts);
    }
  }

  lemma TornApart(c: Config) returns (torn: State)
    requires c.be == RedisBackend && !c.overlap && c.width >= 3 && c.may == Runs(Torn)
    ensures Reachable(c, torn) && torn.sessions.Keys == {0} && torn.row == Submitted && !torn.diverged
    ensures 0 in torn.acts && torn.acts[0].status == Refused && 1 !in torn.acts && 2 !in torn.acts
    ensures 1 in torn.undos && torn.undos[1].addr == "u1" && 2 !in torn.undos
  {
    var s := FirstAlong(c, Torn, [RollbackError], 0);
    assert s.sessions.Keys == {0};
    torn := Then(c, s, Branch(0, "A", Some("u1")));
    assert torn.undos[1].addr == "u1" && torn.acts == s.acts && torn.sessions.Keys == {0};
  }

  lemma TornAgain(c: Config, s: State, recorded: Acts)
    requires c.be == RedisBackend && !c.overlap && c.width >= 3 && c.may == Runs(Torn)
    requires Reachable(c, s) && s.row == Submitted
    requires s.sessions == map[0 := Session(Submitted, Running([Value("v")], recorded))] && 1 !in recorded
    requires Fits(s.acts, 0, Value("v")) && 2 !in recorded
    requires 1 !in s.acts && 2 !in s.acts && 1 in s.undos && s.undos[1].addr == "u1" && 2 !in s.undos
    ensures !NeverDiverges(c)
  {
    var body := OpenOne(c, s, 0, Decl(1, "A", Some("u2")));
    var got := [Value("v"), Value("B")];
    assert [Value("v")] + [Value("B")] == got;
    var answered := AnswerBody(c, body, 0, Success, "B");
    assert answered.acts == s.acts && answered.sessions[0] == Session(Submitted, Running(got, recorded));
    var third := OpenOne(c, answered, 0, Decl(2, "B", None));
    assert third.acts == s.acts[2 := ActRow("B", Pending, "")] && third.sessions.Keys == {0};
    TornThird(c, third);
  }

  lemma TornThird(c: Config, s: State)
    requires c.be == RedisBackend && !c.overlap && c.width >= 3 && c.may == Runs(Torn)
    requires Reachable(c, s) && s.row == Submitted && s.sessions.Keys == {0}
    requires Fits(s.acts, 0, Value("v")) && 1 !in s.acts && 2 in s.acts && s.acts[2].name == "B"
    ensures !NeverDiverges(c)
  {
    var b := [Value("v"), Value("C")];
    assert b[..0] == [] && b[..1] == [Value("v")];
    var t := SecondAlone(c, Torn, s, b);
    if !t.diverged {
      NameClashes(c, Torn, t, 0, b, s.acts);
    }
  }
}
