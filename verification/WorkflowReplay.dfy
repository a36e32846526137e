/** Replay of a deterministic workflow function. Every stored row comes from some path the function
    took, and later paths repeat what earlier ones have stored. When the names (and, on Redis, the
    addresses) that related paths declare agree, no run diverges and no result is lost. */
module WorkflowReplay {
  import opened Types
  import opened Workflow
  import opened WorkflowTheorems
  import opened WorkflowCrashFree

  // ---------- paths ----------

  ghost predicate Path(p: Program, a: seq<RunResult>) {
    OpensAll(p, a, |a|)
  }

  /** Along this path the function gets to open one more branch. */
  ghost predicate Opening(c: Config, p: Program, a: seq<RunResult>) {
    |a| < c.width && Path(p, a) && p(a).OpenBranch?
  }

  /** Along this path the function ends well. */
  ghost predicate Completed(c: Config, p: Program, a: seq<RunResult>) {
    |a| <= c.width && Path(p, a) && p(a) == Return
  }

  /** The second path is handed every value that the first one was given; errors may turn out
      otherwise, since only values are stored. */
  predicate Repeats(a: seq<RunResult>, b: seq<RunResult>) {
    forall i :: 0 <= i < |a| && i < |b| && a[i].Value? ==> b[i] == a[i]
  }

  /** Can the second path be taken when rows of the first one are there? A second runner need not
      repeat anything. */
  predicate Related(c: Config, a: seq<RunResult>, b: seq<RunResult>) {
    c.overlap || Repeats(a, b)
  }

  function NameOf(next: Next): string {
    match next
    case OpenBranch(name, _) => name
    case _ => ""
  }

  function UndoOf(next: Next): Option<string> {
    match next
    case OpenBranch(_, undo) => undo
    case _ => None
  }

  /** Related paths of equal length give the next branch the same name. */
  ghost predicate NamesAgree(c: Config, p: Program) {
    forall a, b :: Opening(c, p, a) && Opening(c, p, b) && |a| == |b| && Related(c, a, b) ==>
      NameOf(p(a)) == NameOf(p(b))
  }

  /** And no two different addresses. */
  ghost predicate AddressesAgree(c: Config, p: Program) {
    forall a, b :: Opening(c, p, a) && Opening(c, p, b) && |a| == |b| && Related(c, a, b)
                   && UndoOf(p(a)).Some? && UndoOf(p(b)).Some? ==>
      UndoOf(p(a)) == UndoOf(p(b))
  }

  // ---------- where rows come from ----------

  /** Without overlap, the values of this path are stored. */
  ghost predicate Kept(c: Config, acts: Acts, g: seq<RunResult>) {
    !c.overlap ==>
      forall i :: 0 <= i < |g| && g[i].Value? ==> i in acts && acts[i].status == Done && acts[i].data == g[i].data
  }

  ghost predicate Source(c: Config, p: Program, acts: Acts, g: seq<RunResult>, k: nat) {
    |g| == k && Opening(c, p, g) && Kept(c, acts, g)
  }

  predicate Secured(undos: Undos, started: set<Promise>, k: nat, undo: Option<string>) {
    undo.Some? ==> k in undos && Promise(k, undo.value) in started
  }

  ghost predicate ActFrom(c: Config, p: Program, s: State, k: nat, name: string) {
    exists g :: Source(c, p, s.acts, g, k) && NameOf(p(g)) == name && Secured(s.undos, s.started, k, UndoOf(p(g)))
  }

  ghost predicate AddressFrom(c: Config, p: Program, acts: Acts, k: nat, addr: string) {
    exists g :: Source(c, p, acts, g, k) && UndoOf(p(g)) == Some(addr)
  }

  ghost predicate RowsFrom(c: Config, p: Program, s: State) {
    && (forall k :: k in s.acts ==> ActFrom(c, p, s, k, s.acts[k].name))
    && (forall k :: k in s.undos ==> AddressFrom(c, p, s.acts, k, s.undos[k].addr))
    && (forall x :: x in s.started ==> AddressFrom(c, p, s.acts, x.k, x.addr))
    && (c.be == SqlBackend ==> s.undos.Keys <= s.acts.Keys)
  }

  // ---------- where sessions are ----------

  /** Without overlap, the rows say what this run was handed, and the promises of the bodies it ran
      are stored. */
  ghost predicate Mirrored(c: Config, p: Program, s: State, got: seq<RunResult>) {
    !c.overlap ==> forall i :: 0 <= i < |got| ==> MirroredAt(p, s, got, i)
  }

  ghost predicate MirroredAt(p: Program, s: State, got: seq<RunResult>, i: nat)
    requires i < |got|
  {
    && i in s.acts
    && (got[i].Value? <==> s.acts[i].status == Done)
    && (got[i].Value? ==> s.acts[i].data == got[i].data)
    && (got[i] == RollbackError ==> s.acts[i].status == Refused)
    && (!got[i].Value? ==> Secured(s.undos, s.started, i, UndoOf(p(got[..i]))))
  }

  /** Rows read at the start of a run are still there, by name. */
  predicate SameNames(recorded: Acts, acts: Acts) {
    forall k :: k in recorded ==> k in acts && acts[k].name == recorded[k].name
  }

  /** `full`: no result is lost either. */
  ghost predicate Along(c: Config, p: Program, full: bool, s: State, me: Session) {
    match me.pc
    case Running(got, recorded) =>
      |got| <= c.width && Path(p, got) && Mirrored(c, p, s, got) && SameNames(recorded, s.acts)
    case Enlisting(got, recorded, name, undo) =>
      && Opening(c, p, got) && Mirrored(c, p, s, got) && SameNames(recorded, s.acts)
      && p(got) == OpenBranch(name, undo) && c.be == RedisBackend
      && (undo.Some? ==> |got| in s.undos && s.undos[|got|].addr == undo.value)
    case InBody(got, recorded) =>
      && Opening(c, p, got) && Mirrored(c, p, s, got) && SameNames(recorded, s.acts)
      && (full ==> |got| in s.acts && Secured(s.undos, s.started, |got|, UndoOf(p(got))))
    case Deciding(to, path) => to == Succeed ==> Completed(c, p, path) && Mirrored(c, p, s, path)
    case _ => true
  }

  ghost predicate Remembered(c: Config, full: bool, s: State) {
    && !s.diverged && (full ==> !s.lost) && (s.acts == map[] ==> !s.reran)
    && (!c.overlap ==> forall k :: k in s.acts ==>
          if s.acts[k].status == Done then Output(k, s.acts[k].data) in s.outputs else s.acts[k].data == "")
  }

  ghost predicate FinishedOk(c: Config, p: Program, s: State) {
    if s.row == Succeed then Completed(c, p, s.finished) && Mirrored(c, p, s, s.finished) else s.finished == []
  }

  ghost predicate ReplayInv(c: Config, p: Program, full: bool, s: State) {
    && RowsFrom(c, p, s)
    && (forall w :: w in s.sessions ==> Along(c, p, full, s, s.sessions[w]))
    && FinishedOk(c, p, s)
    && Remembered(c, full, s)
  }

  /** What makes replay work: names agree and, on Redis, addresses, if no result may be lost. One
      runner needs its results. */
  ghost predicate Replayable(c: Config, p: Program, full: bool) {
    && NamesAgree(c, p)
    && (full && c.be == RedisBackend ==> AddressesAgree(c, p))
    && (full || c.overlap)
  }

  // ---------- growing ----------

  /** Later tables know the same names and addresses, and without overlap the same results. */
  ghost predicate Grows(c: Config, s: State, s': State) {
    && (forall k :: k in s.acts ==> k in s'.acts && s'.acts[k].name == s.acts[k].name)
    && (forall k :: k in s.undos ==> k in s'.undos && s'.undos[k].addr == s.undos[k].addr)
    && s.started <= s'.started
    && (!c.overlap ==> forall k :: k in s.acts && s.acts[k].status == Done ==> s'.acts[k] == s.acts[k])
  }

  lemma SourceStays(c: Config, p: Program, s: State, s': State, g: seq<RunResult>, k: nat)
    requires Grows(c, s, s') && Source(c, p, s.acts, g, k)
    ensures Source(c, p, s'.acts, g, k)
  {
  }

  lemma ActStays(c: Config, p: Program, s: State, s': State, k: nat, name: string)
    requires Grows(c, s, s') && ActFrom(c, p, s, k, name)
    ensures ActFrom(c, p, s', k, name)
  {
    var g :| Source(c, p, s.acts, g, k) && NameOf(p(g)) == name && Secured(s.undos, s.started, k, UndoOf(p(g)));
    SourceStays(c, p, s, s', g, k);
  }

  lemma AddressStays(c: Config, p: Program, s: State, s': State, k: nat, addr: string)
    requires Grows(c, s, s') && AddressFrom(c, p, s.acts, k, addr)
    ensures AddressFrom(c, p, s'.acts, k, addr)
  {
    var g :| Source(c, p, s.acts, g, k) && UndoOf(p(g)) == Some(addr);
    SourceStays(c, p, s, s', g, k);
  }

  /** Rows keep their origin; new ones have to name theirs. */
  lemma RowsStay(c: Config, p: Program, s: State, s': State)
    requires RowsFrom(c, p, s) && Grows(c, s, s')
    requires forall k :: k in s'.acts && k !in s.acts ==> ActFrom(c, p, s', k, s'.acts[k].name)
    requires forall k :: k in s'.undos && k !in s.undos ==> AddressFrom(c, p, s'.acts, k, s'.undos[k].addr)
    requires forall x :: x in s'.started && x !in s.started ==> AddressFrom(c, p, s'.acts, x.k, x.addr)
    requires c.be == SqlBackend ==> s'.undos.Keys <= s'.acts.Keys
    ensures RowsFrom(c, p, s')
  {
    forall k | k in s.acts
      ensures ActFrom(c, p, s', k, s.acts[k].name)
    {
      ActStays(c, p, s, s', k, s.acts[k].name);
    }
    forall k | k in s.undos
      ensures AddressFrom(c, p, s'.acts, k, s.undos[k].addr)
    {
      AddressStays(c, p, s, s', k, s.undos[k].addr);
    }
    forall x | x in s.started
      ensures AddressFrom(c, p, s'.acts, x.k, x.addr)
    {
      AddressStays(c, p, s, s', x.k, x.addr);
    }
  }

  /** The other runners, where there are any, are not disturbed. */
  lemma OthersAlong(c: Config, p: Program, full: bool, s: State, s': State, w: nat)
    requires forall v :: v in s.sessions ==> Along(c, p, full, s, s.sessions[v])
    requires Grows(c, s, s') && (c.overlap || s.sessions.Keys <= {w})
    requires forall v :: v in s'.sessions && v != w ==> v in s.sessions && s'.sessions[v] == s.sessions[v]
    requires w in s'.sessions ==> Along(c, p, full, s', s'.sessions[w])
    ensures forall v :: v in s'.sessions ==> Along(c, p, full, s', s'.sessions[v])
  {
    forall v | v in s'.sessions && v != w
      ensures Along(c, p, full, s', s'.sessions[v])
    {
      assert Along(c, p, full, s, s.sessions[v]);
    }
  }

  // ---------- opening a branch ----------

  lemma PathOneMore(p: Program, got: seq<RunResult>, r: RunResult)
    requires Path(p, got) && p(got).OpenBranch? && !r.DivergedError?
    ensures Path(p, got + [r])
  {
    var a := got + [r];
    forall i | 0 <= i < |a|
      ensures p(a[..i]).OpenBranch? && !a[i].DivergedError?
    {
      assert a[..i] == got[..i];
      assert got[..|got|] == got;
    }
  }

  lemma MirroredOneMore(c: Config, p: Program, s: State, got: seq<RunResult>, r: RunResult)
    requires Mirrored(c, p, s, got)
    requires !c.overlap ==> MirroredAt(p, s, got + [r], |got|)
    ensures Mirrored(c, p, s, got + [r])
  {
    var a := got + [r];
    if !c.overlap {
      forall i | 0 <= i < |got|
        ensures MirroredAt(p, s, a, i)
      {
        assert MirroredAt(p, s, got, i) && a[..i] == got[..i];
      }
    }
  }

  /** What is stored is handed to this run. */
  lemma KeptIsRepeated(c: Config, p: Program, s: State, g: seq<RunResult>, got: seq<RunResult>)
    requires Kept(c, s.acts, g) && Mirrored(c, p, s, got)
    ensures Related(c, g, got)
  {
    if !c.overlap {
      forall i | 0 <= i < |g| && i < |got| && g[i].Value?
        ensures got[i] == g[i]
      {
        assert MirroredAt(p, s, got, i);
      }
    }
  }

  /** The row of the next branch, if there is one, has the name the function gives it now. */
  lemma NameStands(c: Config, p: Program, s: State, got: seq<RunResult>)
    requires RowsFrom(c, p, s) && NamesAgree(c, p) && Opening(c, p, got) && Mirrored(c, p, s, got)
    ensures |got| in s.acts ==> s.acts[|got|].name == NameOf(p(got))
  {
    var k := |got|;
    if k in s.acts {
      assert ActFrom(c, p, s, k, s.acts[k].name);
      var g :| Source(c, p, s.acts, g, k) && NameOf(p(g)) == s.acts[k].name &&
        Secured(s.undos, s.started, k, UndoOf(p(g)));
      KeptIsRepeated(c, p, s, g, got);
    }
  }

  lemma NoClash(c: Config, p: Program, s: State, got: seq<RunResult>)
    requires RowsFrom(c, p, s) && AddressesAgree(c, p) && Opening(c, p, got) && Mirrored(c, p, s, got)
    ensures !UndoClash(s.undos, |got|, UndoOf(p(got)))
  {
    var k := |got|;
    if k in s.undos {
      var addr := s.undos[k].addr;
      assert AddressFrom(c, p, s.acts, k, addr);
      var g :| Source(c, p, s.acts, g, k) && UndoOf(p(g)) == Some(addr);
      KeptIsRepeated(c, p, s, g, got);
    }
  }

  /** The path of this run is a source for the rows of its next branch. */
  lemma SourceHere(c: Config, p: Program, s: State, got: seq<RunResult>)
    requires Opening(c, p, got) && Mirrored(c, p, s, got)
    ensures Source(c, p, s.acts, got, |got|)
  {
    if !c.overlap {
      forall i | 0 <= i < |got| && got[i].Value?
        ensures i in s.acts && s.acts[i].status == Done && s.acts[i].data == got[i].data
      {
        assert MirroredAt(p, s, got, i);
      }
    }
  }

  /** Rows and promises that were added for the next branch on the path. */
  ghost predicate Added(c: Config, s: State, s': State, k: nat, name: string, undo: Option<string>) {
    && (s'.acts == s.acts || (s'.acts == InsertAct(s.acts, k, name) && Secured(s'.undos, s'.started, k, undo)))
    && (s'.undos == s.undos || s'.undos == InsertUndo(s.undos, k, undo))
    && (s'.started == s.started || (undo.Some? && s'.started == s.started + {Promise(k, undo.value)}))
    && (c.be == SqlBackend ==> s'.undos.Keys <= s'.acts.Keys)
  }

  lemma AddedRows(c: Config, p: Program, s: State, s': State, got: seq<RunResult>, name: string, undo: Option<string>)
    requires RowsFrom(c, p, s) && Opening(c, p, got) && Mirrored(c, p, s, got) && p(got) == OpenBranch(name, undo)
    requires Added(c, s, s', |got|, name, undo)
    ensures Grows(c, s, s') && RowsFrom(c, p, s') && Mirrored(c, p, s', got)
  {
    var k := |got|;
    SourceHere(c, p, s, got);
    SourceStays(c, p, s, s', got, k);
    assert undo.Some? ==> AddressFrom(c, p, s'.acts, k, undo.value);
    assert k in s'.acts && k !in s.acts ==> ActFrom(c, p, s', k, name);
    RowsStay(c, p, s, s');
    MirrorStays(c, p, s, s', got);
  }

  lemma AddedRest(c: Config, p: Program, full: bool, s: State, s': State, w: nat, k: nat, name: string,
                  undo: Option<string>)
    requires ReplayInv(c, p, full, s) && (c.overlap || (s.row != Succeed && s.sessions.Keys == {w}))
    requires Added(c, s, s', k, name, undo) && Grows(c, s, s') && RowsFrom(c, p, s')
    requires s' == s.(acts := s'.acts, undos := s'.undos, started := s'.started, sessions := s'.sessions,
      reran := s'.reran)
    requires s'.reran && s'.acts == map[] ==> s.reran && s.acts == map[]
    requires forall v :: v in s'.sessions && v != w ==> v in s.sessions && s'.sessions[v] == s.sessions[v]
    requires w in s'.sessions ==> Along(c, p, full, s', s'.sessions[w])
    ensures ReplayInv(c, p, full, s')
  {
    OthersAlong(c, p, full, s, s', w);
  }

  /** The body of the next branch begins. */
  lemma BodyBegins(c: Config, p: Program, full: bool, s: State, w: nat, acts: Acts, undos: Undos,
                   got: seq<RunResult>, recorded: Acts, name: string, undo: Option<string>)
    requires ReplayInv(c, p, full, s) && w in s.sessions && (c.overlap || (s.row != Succeed && s.sessions.Keys == {w}))
    requires Opening(c, p, got) && Mirrored(c, p, s, got) && SameNames(recorded, s.acts) &&
      p(got) == OpenBranch(name, undo)
    requires acts == s.acts || acts == InsertAct(s.acts, |got|, name)
    requires undos == s.undos || undos == InsertUndo(s.undos, |got|, undo)
    requires (full || acts != s.acts) && undo.Some? ==> |got| in undos
    requires full ==> |got| in acts
    requires c.be == SqlBackend ==> undos.Keys <= acts.Keys
    ensures ReplayInv(c, p, full, StartBody(s, w, acts, undos, got, recorded, undo))
  {
    var s' := StartBody(s, w, acts, undos, got, recorded, undo);
    StartFrame(s, w, acts, undos, got, recorded, undo);
    StartAdds(c, s, s', acts, undos, |got|, name, undo);
    AddedRows(c, p, s, s', got, name, undo);
    NowInBody(c, p, full, s, s', w, got, recorded, name, undo);
    AddedRest(c, p, full, s, s', w, |got|, name, undo);
  }

  lemma NowInBody(c: Config, p: Program, full: bool, s: State, s': State, w: nat, got: seq<RunResult>, recorded: Acts,
                  name: string, undo: Option<string>)
    requires w in s'.sessions && s'.sessions[w].pc == InBody(got, recorded)
    requires Opening(c, p, got) && Mirrored(c, p, s', got) && SameNames(recorded, s.acts) &&
      p(got) == OpenBranch(name, undo)
    requires Grows(c, s, s')
    requires full ==> |got| in s'.acts && (undo.Some? ==> |got| in s'.undos)
    requires undo.Some? ==> Promise(|got|, undo.value) in s'.started
    ensures Along(c, p, full, s', s'.sessions[w])
  {
  }

  lemma StartAdds(c: Config, s: State, s': State, acts: Acts, undos: Undos, k: nat, name: string, undo: Option<string>)
    requires s'.acts == acts && s'.undos == undos
    requires s'.started == (if undo.Some? then s.started + {Promise(k, undo.value)} else s.started)
    requires acts == s.acts || acts == InsertAct(s.acts, k, name)
    requires undos == s.undos || undos == InsertUndo(s.undos, k, undo)
    requires acts != s.acts && undo.Some? ==> k in undos
    requires c.be == SqlBackend ==> undos.Keys <= acts.Keys
    ensures Added(c, s, s', k, name, undo)
  {
  }

  lemma StartFrame(s: State, w: nat, acts: Acts, undos: Undos, got: seq<RunResult>, recorded: Acts,
                   undo: Option<string>)
    requires w in s.sessions
    ensures
      var s', k := StartBody(s, w, acts, undos, got, recorded, undo), |got|;
      && s' == s.(acts := acts, undos := undos, started := s'.started, sessions := s'.sessions, reran := s'.reran)
      && s'.started == (if undo.Some? then s.started + {Promise(k, undo.value)} else s.started)
      && s'.sessions == s.sessions[w := Session(s.sessions[w].status, InBody(got, recorded))]
      && (s'.reran ==> s.reran || s.acts != map[])
  {
  }

  /** What was stored for this run stays stored. */
  lemma MirrorStays(c: Config, p: Program, s: State, s': State, got: seq<RunResult>)
    requires Mirrored(c, p, s, got) && Grows(c, s, s')
    requires !c.overlap ==> forall k :: k in s.acts && k < |got| ==> s'.acts[k] == s.acts[k]
    ensures Mirrored(c, p, s', got)
  {
    if !c.overlap {
      forall i | 0 <= i < |got|
        ensures MirroredAt(p, s', got, i)
      {
        assert MirroredAt(p, s, got, i);
      }
    }
  }

  /** Registering the next branch on the path. */
  lemma RegisterOnPath(c: Config, p: Program, full: bool, s: State, w: nat, got: seq<RunResult>, recorded: Acts,
                       name: string, undo: Option<string>)
    requires ReplayInv(c, p, full, s) && Replayable(c, p, full) && w in s.sessions
    requires c.overlap || (s.row != Succeed && s.sessions.Keys == {w})
    requires Opening(c, p, got) && Mirrored(c, p, s, got) && SameNames(recorded, s.acts) &&
      p(got) == OpenBranch(name, undo)
    ensures ReplayInv(c, p, full, StepRegister(c.be, s, w, got, recorded, name, undo))
  {
    if full && c.be == RedisBackend {
      NoClash(c, p, s, got);
    }
    if UndoClash(s.undos, |got|, undo) {
      BodyBegins(c, p, full, s, w, s.acts, s.undos, got, recorded, name, undo);
    } else if c.be == SqlBackend {
      NameStands(c, p, s, got);
      SqlRegisters(c, p, full, s, w, got, recorded, name, undo);
    } else {
      Enlisted(c, p, full, s, w, got, recorded, name, undo);
    }
  }

  lemma SqlRegisters(c: Config, p: Program, full: bool, s: State, w: nat, got: seq<RunResult>, recorded: Acts,
                     name: string, undo: Option<string>)
    requires ReplayInv(c, p, full, s) && w in s.sessions && c.be == SqlBackend && !UndoClash(s.undos, |got|, undo)
    requires c.overlap || (s.row != Succeed && s.sessions.Keys == {w})
    requires |got| in s.acts ==> s.acts[|got|].name == name
    requires Opening(c, p, got) && Mirrored(c, p, s, got) && SameNames(recorded, s.acts) &&
      p(got) == OpenBranch(name, undo)
    ensures ReplayInv(c, p, full, StepRegister(c.be, s, w, got, recorded, name, undo))
  {
    var k := |got|;
    BodyBegins(c, p, full, s, w, InsertAct(s.acts, k, name), InsertUndo(s.undos, k, undo), got, recorded, name, undo);
  }

  lemma Enlisted(c: Config, p: Program, full: bool, s: State, w: nat, got: seq<RunResult>, recorded: Acts,
                 name: string, undo: Option<string>)
    requires ReplayInv(c, p, full, s) && w in s.sessions && c.be == RedisBackend && !UndoClash(s.undos, |got|, undo)
    requires c.overlap || (s.row != Succeed && s.sessions.Keys == {w})
    requires Opening(c, p, got) && Mirrored(c, p, s, got) && SameNames(recorded, s.acts) &&
      p(got) == OpenBranch(name, undo)
    ensures ReplayInv(c, p, full, StepRegister(c.be, s, w, got, recorded, name, undo))
  {
    var s' := StepRegister(c.be, s, w, got, recorded, name, undo);
    assert Added(c, s, s', |got|, name, undo);
    AddedRows(c, p, s, s', got, name, undo);
    AddedRest(c, p, full, s, s', w, |got|, name, undo);
  }

  lemma KeepReplayEnlist(c: Config, p: Program, full: bool, s: State, w: nat)
    requires ReplayInv(c, p, full, s) && Replayable(c, p, full) && (c.overlap || Inv(s))
    requires w in s.sessions && s.sessions[w].pc.Enlisting?
    ensures ReplayInv(c, p, full, StepEnlist(s, w))
  {
    var pc := s.sessions[w].pc;
    assert Along(c, p, full, s, s.sessions[w]);
    if !c.overlap {
      OnlyOne(s, w);
    }
    BodyBegins(c, p, full, s, w, InsertAct(s.acts, |pc.got|, pc.name), s.undos, pc.got, pc.recorded, pc.name, pc.undo);
  }

  lemma KeepReplayBranch(c: Config, p: Program, full: bool, s: State, w: nat, name: string, undo: Option<string>)
    requires ReplayInv(c, p, full, s) && Replayable(c, p, full) && (c.overlap || Inv(s))
    requires w in s.sessions && s.sessions[w].pc.Running? && |s.sessions[w].pc.got| < c.width
    requires p(s.sessions[w].pc.got) == OpenBranch(name, undo)
    ensures ReplayInv(c, p, full, StepBranch(c, s, w, name, undo))
  {
    var got, recorded := s.sessions[w].pc.got, s.sessions[w].pc.recorded;
    assert Along(c, p, full, s, s.sessions[w]);
    if !c.overlap {
      OnlyOne(s, w);
      assert SessionOk(s, s.sessions[w]);
    }
    NameStands(c, p, s, got);
    if Consult(recorded, |got|, name) == RunBody {
      RegisterOnPath(c, p, full, s, w, got, recorded, name, undo);
    } else {
      HandedOn(c, p, full, s, w, got, recorded, name, undo);
    }
  }

  /** A memoised result is the one in the table, or with a second runner at least some result. */
  lemma HandedOn(c: Config, p: Program, full: bool, s: State, w: nat, got: seq<RunResult>, recorded: Acts,
                 name: string, undo: Option<string>)
    requires ReplayInv(c, p, full, s) && (c.overlap || s.sessions.Keys == {w})
    requires w in s.sessions && s.sessions[w].pc == Running(got, recorded) && p(got) == OpenBranch(name, undo)
    requires Opening(c, p, got) && |got| in recorded && recorded[|got|].name == name && recorded[|got|].status == Done
    requires !c.overlap ==> |got| in s.acts && s.acts[|got|] == recorded[|got|]
    ensures ReplayInv(c, p, full, StepBranch(c, s, w, name, undo))
  {
    var r, s' := Value(recorded[|got|].data), StepBranch(c, s, w, name, undo);
    assert Along(c, p, full, s, s.sessions[w]);
    PathOneMore(p, got, r);
    MirroredOneMore(c, p, s, got, r);
    assert s' == s.(sessions := s.sessions[w := Session(s.sessions[w].status, Running(got + [r], recorded))]);
    SameRows(c, p, full, s, s', w);
  }

  /** A step that leaves the rows alone. */
  lemma SameRows(c: Config, p: Program, full: bool, s: State, s': State, w: nat)
    requires ReplayInv(c, p, full, s)
    requires s' == s.(row := s'.row, sessions := s'.sessions, undoCalled := s'.undoCalled, finished := s'.finished)
    requires forall v :: v in s'.sessions && v != w ==> v in s.sessions && s'.sessions[v] == s.sessions[v]
    requires w in s'.sessions ==> Along(c, p, full, s, s'.sessions[w])
    requires if s'.row == Succeed then Completed(c, p, s'.finished) && Mirrored(c, p, s, s'.finished)
             else s'.finished == []
    ensures ReplayInv(c, p, full, s')
  {
    assert RowsFrom(c, p, s') by {
      RowsStay(c, p, s, s');
    }
    forall v | v in s'.sessions
      ensures Along(c, p, full, s', s'.sessions[v])
    {
      assert v != w ==> Along(c, p, full, s, s.sessions[v]);
      SameAlong(c, p, full, s, s', s'.sessions[v]);
    }
    SameMirror(c, p, s, s', s'.finished);
  }

  lemma SameMirror(c: Config, p: Program, s: State, s': State, got: seq<RunResult>)
    requires s'.acts == s.acts && s'.undos == s.undos && s'.started == s.started
    ensures Mirrored(c, p, s', got) <==> Mirrored(c, p, s, got)
  {
    forall i | 0 <= i < |got|
      ensures MirroredAt(p, s', got, i) <==> MirroredAt(p, s, got, i)
    {
    }
  }

  lemma SameAlong(c: Config, p: Program, full: bool, s: State, s': State, me: Session)
    requires s'.acts == s.acts && s'.undos == s.undos && s'.started == s.started
    requires Along(c, p, full, s, me)
    ensures Along(c, p, full, s', me)
  {
    match me.pc
    case Running(got, _) => SameMirror(c, p, s, s', got);
    case Enlisting(got, _, _, _) => SameMirror(c, p, s, s', got);
    case InBody(got, _) => SameMirror(c, p, s, s', got);
    case Deciding(_, path) => SameMirror(c, p, s, s', path);
    case _ =>
  }

  // ---------- every step ----------

  lemma KeepReplayBody(c: Config, p: Program, full: bool, s: State, w: nat, r: Reply, data: string)
    requires ReplayInv(c, p, full, s) && Replayable(c, p, full) && (c.overlap || Inv(s))
    requires w in s.sessions && s.sessions[w].pc.InBody?
    ensures ReplayInv(c, p, full, StepBody(s, w, r, data))
  {
    var got, recorded := s.sessions[w].pc.got, s.sessions[w].pc.recorded;
    assert Along(c, p, full, s, s.sessions[w]);
    if !c.overlap {
      OnlyOne(s, w);
      assert SessionOk(s, s.sessions[w]);
    }
    BodyFrame(s, w, r, data);
    Settled(c, p, full, s, StepBody(s, w, r, data), w, got, recorded, r, data);
  }

  lemma BodyFrame(s: State, w: nat, r: Reply, data: string)
    requires w in s.sessions && s.sessions[w].pc.InBody?
    ensures
      var me, s' := s.sessions[w], StepBody(s, w, r, data);
      var k := |me.pc.got|;
      && s' == s.(acts := Settle(s.acts, k, r, data), sessions := s'.sessions, outputs := s'.outputs, lost := s'.lost)
      && s'.sessions == s.sessions[w := Session(me.status, Running(me.pc.got + [ResultOf(r, data)], me.pc.recorded))]
      && s'.outputs == (if r == Success then s.outputs + {Output(k, data)} else s.outputs)
      && s'.lost == (s.lost || (r == Success && k !in s.acts))
  {
  }

  lemma Settled(c: Config, p: Program, full: bool, s: State, s': State, w: nat, got: seq<RunResult>, recorded: Acts,
                r: Reply, data: string)
    requires ReplayInv(c, p, full, s) && Replayable(c, p, full) &&
      (c.overlap || (s.row != Succeed && s.sessions.Keys == {w}))
    requires w in s.sessions && s.sessions[w].pc == InBody(got, recorded) && Along(c, p, full, s, s.sessions[w])
    requires !c.overlap && |got| in s.acts ==> s.acts[|got|].status != Done
    requires s' == s.(acts := Settle(s.acts, |got|, r, data), sessions := s'.sessions, outputs := s'.outputs,
      lost := s'.lost)
    requires s'.sessions
          == s.sessions[w := Session(s.sessions[w].status, Running(got + [ResultOf(r, data)], recorded))]
    requires s'.outputs == (if r == Success then s.outputs + {Output(|got|, data)} else s.outputs)
    requires s'.lost == (s.lost || (r == Success && |got| !in s.acts))
    ensures ReplayInv(c, p, full, s')
  {
    SettledGrows(c, s, s', |got|, r, data);
    RowsStay(c, p, s, s');
    SettledAlong(c, p, full, s, s', w, got, recorded, r, data);
    OthersAlong(c, p, full, s, s', w);
    SettledRemembered(c, full, s, s', |got|, r, data);
  }

  lemma SettledGrows(c: Config, s: State, s': State, k: nat, r: Reply, data: string)
    requires s'.acts == Settle(s.acts, k, r, data) && s'.undos == s.undos && s'.started == s.started
    requires !c.overlap && k in s.acts ==> s.acts[k].status != Done
    ensures Grows(c, s, s')
  {
  }

  lemma SettledAlong(c: Config, p: Program, full: bool, s: State, s': State, w: nat, got: seq<RunResult>,
                     recorded: Acts, r: Reply, data: string)
    requires Along(c, p, full, s, Session(Submitted, InBody(got, recorded))) && Grows(c, s, s') && (full || c.overlap)
    requires s'.acts == Settle(s.acts, |got|, r, data) && s'.undos == s.undos && s'.started == s.started
    requires !c.overlap && |got| in s.acts ==> s.acts[|got|].status != Done
    requires w in s'.sessions && s'.sessions[w].pc == Running(got + [ResultOf(r, data)], recorded)
    ensures Along(c, p, full, s', s'.sessions[w])
  {
    var result := ResultOf(r, data);
    PathOneMore(p, got, result);
    MirrorStays(c, p, s, s', got);
    if !c.overlap {
      SettledMirror(p, s', got, r, data);
    }
    MirroredOneMore(c, p, s', got, result);
  }

  lemma SettledRemembered(c: Config, full: bool, s: State, s': State, k: nat, r: Reply, data: string)
    requires Remembered(c, full, s) && (full ==> k in s.acts)
    requires s'.acts == Settle(s.acts, k, r, data) && s'.diverged == s.diverged && s'.reran == s.reran
    requires !c.overlap && k in s.acts ==> s.acts[k].status != Done
    requires s'.outputs == (if r == Success then s.outputs + {Output(k, data)} else s.outputs)
    requires s'.lost == (s.lost || (r == Success && k !in s.acts))
    ensures Remembered(c, full, s')
  {
  }

  lemma SettledMirror(p: Program, s: State, got: seq<RunResult>, r: Reply, data: string)
    requires |got| in s.acts && s.acts == Settle(s.acts, |got|, r, data)
    requires r != Success ==> s.acts[|got|].status != Done
    requires Secured(s.undos, s.started, |got|, UndoOf(p(got)))
    ensures MirroredAt(p, s, got + [ResultOf(r, data)], |got|)
  {
    assert (got + [ResultOf(r, data)])[..|got|] == got;
  }

  lemma KeepReplayAnswer(c: Config, p: Program, full: bool, s: State, w: nat, r: Reply)
    requires ReplayInv(c, p, full, s) && (c.overlap || Inv(s)) && w in s.sessions && s.sessions[w].pc.Undoing?
    ensures ReplayInv(c, p, full, StepAnswer(s, w, r))
  {
    if !c.overlap {
      OnlyOne(s, w);
    }
    AnswerFrame(s, w, r);
    SameAddresses(c, p, full, s, StepAnswer(s, w, r), w);
  }

  lemma AnswerFrame(s: State, w: nat, r: Reply)
    requires w in s.sessions && s.sessions[w].pc.Undoing?
    ensures
      var s' := StepAnswer(s, w, r);
      && s' == s.(undos := s'.undos, sessions := s'.sessions, undoAcked := s'.undoAcked)
      && s'.undos.Keys == s.undos.Keys && (forall k :: k in s.undos ==> s'.undos[k].addr == s.undos[k].addr)
      && (forall v :: v in s'.sessions && v != w ==> v in s.sessions && s'.sessions[v] == s.sessions[v])
      && (w in s'.sessions ==> s'.sessions[w].pc == Reading)
  {
  }

  lemma SameAddresses(c: Config, p: Program, full: bool, s: State, s': State, w: nat)
    requires ReplayInv(c, p, full, s) && (c.overlap || s.sessions.Keys <= {w})
    requires s' == s.(undos := s'.undos, sessions := s'.sessions, undoAcked := s'.undoAcked)
    requires s'.undos.Keys == s.undos.Keys && (forall k :: k in s.undos ==> s'.undos[k].addr == s.undos[k].addr)
    requires forall v :: v in s'.sessions && v != w ==> v in s.sessions && s'.sessions[v] == s.sessions[v]
    requires w in s'.sessions ==> s'.sessions[w].pc == Reading
    ensures ReplayInv(c, p, full, s')
  {
    RowsStay(c, p, s, s');
    OthersAlong(c, p, full, s, s', w);
    MirrorStays(c, p, s, s', s.finished);
  }

  lemma KeepReplayRead(c: Config, p: Program, full: bool, s: State, w: nat)
    requires ReplayInv(c, p, full, s) && LooseInv(c, s) && w in s.sessions && s.sessions[w].pc == Reading
    ensures ReplayInv(c, p, full, StepRead(s, w))
  {
    assert Loose(c, s, s.sessions[w]);
    ReadFrame(s, w);
    var s' := StepRead(s, w);
    if w in s'.sessions {
      ReadStarts(c, p, full, s, w);
    }
    SameRows(c, p, full, s, s', w);
  }

  lemma ReadStarts(c: Config, p: Program, full: bool, s: State, w: nat)
    requires w in s.sessions && w in StepRead(s, w).sessions && Loose(c, s, s.sessions[w])
    ensures Along(c, p, full, s, StepRead(s, w).sessions[w])
  {
    match s.sessions[w].status
    case Submitted => assert StepRead(s, w).sessions[w].pc == Running([], s.acts);
    case _ => AbortingStarts(c, p, full, s, w);
  }

  lemma AbortingStarts(c: Config, p: Program, full: bool, s: State, w: nat)
    requires w in s.sessions && s.sessions[w].status == Aborting && w in StepRead(s, w).sessions
    ensures Along(c, p, full, s, StepRead(s, w).sessions[w])
  {
    DecidedUndo(s.undos);
  }

  lemma KeepReplayWrite(c: Config, p: Program, full: bool, s: State, w: nat)
    requires ReplayInv(c, p, full, s) && LooseInv(c, s) && w in s.sessions && s.sessions[w].pc.Deciding?
    ensures ReplayInv(c, p, full, StepWrite(c, s, w))
  {
    assert Along(c, p, full, s, s.sessions[w]) && Loose(c, s, s.sessions[w]);
    WriteFrame(c, s, w);
    SameRows(c, p, full, s, StepWrite(c, s, w), w);
  }

  lemma KeepReplaySession(c: Config, p: Program, full: bool, s: State, e: Event)
    requires c.may == Runs(p) && ReplayInv(c, p, full, s) && Step(c, s, e).Some?
    requires e.Lock? || e.Ends? || e.GivesUp? || e.Leave?
    requires e.Ends? ==> |s.sessions[e.w].pc.got| <= c.width
    ensures ReplayInv(c, p, full, Step(c, s, e).value)
  {
    var s' := Step(c, s, e).value;
    assert s' == s.(sessions := s'.sessions);
    if e.Ends? {
      assert Along(c, p, full, s, s.sessions[e.w]);
    }
    SameRows(c, p, full, s, s', e.w);
  }

  lemma ReplayStepKeeps(c: Config, p: Program, full: bool, s: State, e: Event)
    requires c.may == Runs(p) && Replayable(c, p, full) && (c.overlap || Inv(s)) && LooseInv(c, s)
    requires ReplayInv(c, p, full, s) && Step(c, s, e).Some?
    ensures ReplayInv(c, p, full, Step(c, s, e).value)
  {
    match e
    case Read(w) => KeepReplayRead(c, p, full, s, w);
    case Branch(w, name, undo) => KeepReplayBranch(c, p, full, s, w, name, undo);
    case Enlist(w) => KeepReplayEnlist(c, p, full, s, w);
    case Body(w, r, data) => KeepReplayBody(c, p, full, s, w, r, data);
    case Answer(w, r) => KeepReplayAnswer(c, p, full, s, w, r);
    case Write(w) => KeepReplayWrite(c, p, full, s, w);
    case Abort => SameRows(c, p, full, s, s.(row := Aborting), 0);
    case Ends(w) =>
      assert Along(c, p, full, s, s.sessions[w]);
      KeepReplaySession(c, p, full, s, e);
    case _ => KeepReplaySession(c, p, full, s, e);
  }

  lemma {:induction false} ReplayExec(c: Config, p: Program, full: bool, s: State, events: seq<Event>)
    requires c.may == Runs(p) && Replayable(c, p, full) && (c.overlap || Inv(s)) && LooseInv(c, s)
    requires ReplayInv(c, p, full, s) && Exec(c, s, events).Some?
    ensures ReplayInv(c, p, full, Exec(c, s, events).value)
    decreases |events|
  {
    if events != [] {
      ReplayStepKeeps(c, p, full, s, events[0]);
      LooseStep(c, s, events[0]);
      if !c.overlap {
        StepKeeps(c, s, events[0]);
      }
      ReplayExec(c, p, full, Step(c, s, events[0]).value, events[1..]);
    }
  }

  lemma ReachableReplay(c: Config, p: Program, full: bool, s: State)
    requires c.may == Runs(p) && Replayable(c, p, full) && Reachable(c, s)
    ensures ReplayInv(c, p, full, s) && (c.overlap || Inv(s))
  {
    var events :| Exec(c, INIT, events) == Some(s);
    ReplayExec(c, p, full, INIT, events);
    if !c.overlap {
      ReachableInv(c, s);
    }
  }
}
