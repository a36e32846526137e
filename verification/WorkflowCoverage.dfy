/** What a workflow promises about its compensations and its bodies, for a function of which only
    the branches it may declare are known, and exactly when the promises are kept. */
module WorkflowCoverage {
  import opened Types
  import opened BranchIds
  import opened Workflow
  import opened WorkflowTheorems
  import opened WorkflowRuns

  // ---------- the promises ----------

  predicate StoredAsDeclared(undos: Undos, x: Promise) {
    x.k in undos && undos[x.k].addr == x.addr
  }

  /** Every compensation declared for a branch whose body ever started is stored, at that address. */
  ghost predicate Covered(c: Config) {
    forall s :: Reachable(c, s) ==> !Forgotten(s)
  }

  ghost predicate Forgotten(s: State) {
    exists x :: x in s.started && !StoredAsDeclared(s.undos, x)
  }

  /** A failed transaction has had every registered compensation acknowledged, and no other. */
  ghost predicate FailedIsUndone(c: Config) {
    forall s :: Reachable(c, s) && s.row == Failed ==> s.undoAcked == s.undos.Keys
  }

  /** No body runs again after its result was stored. */
  ghost predicate NeverRerun(c: Config) {
    forall s :: Reachable(c, s) ==> !s.reran
  }

  // ---------- what the function may declare ----------

  /** Two declarations for one position that cannot put each other's compensation out of the way.
      Two addresses must be the same, except that without overlap the name tells them apart on SQL,
      where an address is never stored without its name. A declaration without an address can keep
      out one with another name on SQL, where a clash of names rolls the address back. */
  predicate Compatible(c: Config, d: Decl, e: Decl) {
    match (d.undo, e.undo)
    case (None, None) => true
    case (Some(a), Some(b)) => a == b || (d.name != e.name && c.be == SqlBackend && !c.overlap)
    case _ => d.name == e.name || c.be == RedisBackend || !c.overlap
  }

  ghost predicate AllCompatible(c: Config)
    requires c.may.Declares?
  {
    forall d, e :: d in c.may.decls && e in c.may.decls && d.k == e.k < c.width ==> Compatible(c, d, e)
  }

  ghost predicate FromDecl(c: Config, k: nat, name: string, undo: Option<string>) {
    k < c.width && c.may.Declares? && Decl(k, name, undo) in c.may.decls
  }

  // ---------- where rows come from ----------

  ghost predicate UndoOrigin(c: Config, acts: Acts, undos: Undos, k: nat)
    requires k in undos
  {
    exists name :: FromDecl(c, k, name, Some(undos[k].addr)) &&
      (c.be == SqlBackend ==> k in acts && acts[k].name == name)
  }

  ghost predicate ActOrigin(c: Config, acts: Acts, undos: Undos, k: nat)
    requires k in acts
  {
    exists undo: Option<string> :: FromDecl(c, k, acts[k].name, undo) && (undo.Some? ==> k in undos)
  }

  ghost predicate Enlists(c: Config, s: State, me: Session) {
    me.pc.Enlisting? ==>
      && c.be == RedisBackend && FromDecl(c, |me.pc.got|, me.pc.name, me.pc.undo)
      && (me.pc.undo.Some? ==> StoredAsDeclared(s.undos, Promise(|me.pc.got|, me.pc.undo.value)))
  }

  ghost predicate CoverInv(c: Config, s: State) {
    && (forall k :: k in s.undos ==> UndoOrigin(c, s.acts, s.undos, k))
    && (forall k :: k in s.acts ==> ActOrigin(c, s.acts, s.undos, k))
    && (forall x :: x in s.started ==> StoredAsDeclared(s.undos, x))
    && (forall w :: w in s.sessions ==> Enlists(c, s, s.sessions[w]))
  }

  /** Later tables know the same names and addresses, and perhaps more. */
  predicate Grows(acts: Acts, undos: Undos, acts': Acts, undos': Undos) {
    && (forall k :: k in acts ==> k in acts' && acts'[k].name == acts[k].name)
    && (forall k :: k in undos ==> k in undos' && undos'[k].addr == undos[k].addr)
  }

  lemma OriginsStay(c: Config, s: State, acts: Acts, undos: Undos)
    requires CoverInv(c, s) && Grows(s.acts, s.undos, acts, undos)
    ensures forall k :: k in s.undos ==> UndoOrigin(c, acts, undos, k)
    ensures forall k :: k in s.acts ==> ActOrigin(c, acts, undos, k)
    ensures forall x :: x in s.started ==> StoredAsDeclared(undos, x)
  {
    forall k | k in s.undos
      ensures UndoOrigin(c, acts, undos, k)
    {
      var name :| FromDecl(c, k, name, Some(s.undos[k].addr)) &&
        (c.be == SqlBackend ==> k in s.acts && s.acts[k].name == name);
      assert FromDecl(c, k, name, Some(undos[k].addr));
    }
    forall k | k in s.acts
      ensures ActOrigin(c, acts, undos, k)
    {
      var undo: Option<string> :| FromDecl(c, k, s.acts[k].name, undo) && (undo.Some? ==> k in s.undos);
      assert FromDecl(c, k, acts[k].name, undo);
    }
  }

  /** Compatible declarations: whatever was declared for this position before, registering this one
      leaves its own address stored. */
  lemma Secured(c: Config, s: State, k: nat, name: string, undo: Option<string>)
    requires c.may.Declares? && AllCompatible(c) && CoverInv(c, s) && FromDecl(c, k, name, undo)
    requires !c.overlap && k in s.acts ==> s.acts[k].name == name
    ensures !UndoClash(s.undos, k, undo)
    ensures
      var (acts, undos) := Register(c.be, s.acts, s.undos, k, name, undo);
      undo.Some? ==> StoredAsDeclared(undos, Promise(k, undo.value))
  {
    if k in s.undos {
      assert UndoOrigin(c, s.acts, s.undos, k);
      var other :| FromDecl(c, k, other, Some(s.undos[k].addr)) &&
        (c.be == SqlBackend ==> k in s.acts && s.acts[k].name == other);
      assert Compatible(c, Decl(k, name, undo), Decl(k, other, Some(s.undos[k].addr)));
    } else if k in s.acts {
      assert ActOrigin(c, s.acts, s.undos, k);
      var was: Option<string> :| FromDecl(c, k, s.acts[k].name, was) && (was.Some? ==> k in s.undos);
      assert Compatible(c, Decl(k, name, undo), Decl(k, s.acts[k].name, was));
    }
  }

  lemma CoverRegister(c: Config, s: State, w: nat, got: seq<RunResult>, recorded: Acts, name: string,
                      undo: Option<string>)
    requires c.may.Declares? && AllCompatible(c) && CoverInv(c, s) && FromDecl(c, |got|, name, undo)
    requires w in s.sessions
    requires !c.overlap && |got| in s.acts ==> s.acts[|got|].name == name
    ensures CoverInv(c, StepRegister(c.be, s, w, got, recorded, name, undo))
  {
    var k := |got|;
    Secured(c, s, k, name, undo);
    var (acts, undos) := Register(c.be, s.acts, s.undos, k, name, undo);
    if c.be == SqlBackend {
      if (acts, undos) != (s.acts, s.undos) {
        RowsAdded(c, s, k, name, undo, acts, undos);
      }
      CoverStart(c, s, w, acts, undos, got, recorded, undo);
    } else {
      var s' := StepRegister(c.be, s, w, got, recorded, name, undo);
      OriginsStay(c, s, s.acts, undos);
      if undo.Some? && k !in s.undos {
        assert FromDecl(c, k, name, Some(undos[k].addr));
      }
      assert forall v :: v in s'.sessions && v != w ==> s'.sessions[v] == s.sessions[v];
    }
  }

  lemma RowsAdded(c: Config, s: State, k: nat, name: string, undo: Option<string>, acts: Acts, undos: Undos)
    requires CoverInv(c, s) && FromDecl(c, k, name, undo)
    requires undo.Some? ==> StoredAsDeclared(undos, Promise(k, undo.value))
    requires acts == InsertAct(s.acts, k, name) && undos == InsertUndo(s.undos, k, undo)
    requires c.be == SqlBackend && k in s.acts ==> s.acts[k].name == name
    ensures Grows(s.acts, s.undos, acts, undos)
    ensures forall j :: j in undos ==> UndoOrigin(c, acts, undos, j)
    ensures forall j :: j in acts ==> ActOrigin(c, acts, undos, j)
  {
    OriginsStay(c, s, acts, undos);
    if k in undos && k !in s.undos {
      assert FromDecl(c, k, name, Some(undos[k].addr));
    }
    if k in acts && k !in s.acts {
      assert FromDecl(c, k, acts[k].name, undo);
    }
  }

  lemma CoverStart(c: Config, s: State, w: nat, acts: Acts, undos: Undos, got: seq<RunResult>, recorded: Acts,
                   undo: Option<string>)
    requires CoverInv(c, s) && w in s.sessions && Grows(s.acts, s.undos, acts, undos)
    requires undo.Some? ==> StoredAsDeclared(undos, Promise(|got|, undo.value))
    requires forall j :: j in undos ==> UndoOrigin(c, acts, undos, j)
    requires forall j :: j in acts ==> ActOrigin(c, acts, undos, j)
    ensures CoverInv(c, StartBody(s, w, acts, undos, got, recorded, undo))
  {
    var s' := StartBody(s, w, acts, undos, got, recorded, undo);
    forall v | v in s'.sessions
      ensures Enlists(c, s', s'.sessions[v])
    {
      assert v != w ==> Enlists(c, s, s.sessions[v]);
    }
  }

  lemma CoverEnlist(c: Config, s: State, w: nat)
    requires CoverInv(c, s) && w in s.sessions && s.sessions[w].pc.Enlisting?
    ensures CoverInv(c, StepEnlist(s, w))
  {
    assert Enlists(c, s, s.sessions[w]);
    var pc := s.sessions[w].pc;
    var acts := InsertAct(s.acts, |pc.got|, pc.name);
    RowsAdded(c, s, |pc.got|, pc.name, pc.undo, acts, s.undos);
    CoverStart(c, s, w, acts, s.undos, pc.got, pc.recorded, pc.undo);
  }

  lemma CoverOther(c: Config, s: State, s': State, w: nat)
    requires CoverInv(c, s) && Grows(s.acts, s.undos, s'.acts, s'.undos)
    requires s'.acts.Keys == s.acts.Keys && s'.undos.Keys == s.undos.Keys && s'.started == s.started
    requires forall v :: v in s'.sessions && v != w ==> v in s.sessions && s'.sessions[v] == s.sessions[v]
    requires w in s'.sessions ==> !s'.sessions[w].pc.Enlisting?
    ensures CoverInv(c, s')
  {
    OriginsStay(c, s, s'.acts, s'.undos);
  }

  lemma CoverBranch(c: Config, s: State, w: nat, name: string, undo: Option<string>)
    requires c.may.Declares? && AllCompatible(c) && CoverInv(c, s) && (c.overlap || Inv(s))
    requires w in s.sessions && s.sessions[w].pc.Running? && |s.sessions[w].pc.got| < c.width
    requires Allows(c.may, s.sessions[w].pc.got, OpenBranch(name, undo))
    ensures CoverInv(c, StepBranch(c, s, w, name, undo))
  {
    var got, recorded := s.sessions[w].pc.got, s.sessions[w].pc.recorded;
    if Consult(recorded, |got|, name) == RunBody {
      assert c.overlap || SessionOk(s, s.sessions[w]);
      CoverRegister(c, s, w, got, recorded, name, undo);
    } else {
      HandedFrame(c, s, w, name, undo);
      CoverOther(c, s, StepBranch(c, s, w, name, undo), w);
    }
  }

  lemma CoverStep(c: Config, s: State, e: Event)
    requires c.may.Declares? && AllCompatible(c) && CoverInv(c, s) && (c.overlap || Inv(s)) && Step(c, s, e).Some?
    ensures CoverInv(c, Step(c, s, e).value)
  {
    match e
    case Branch(w, name, undo) => CoverBranch(c, s, w, name, undo);
    case Enlist(w) => CoverEnlist(c, s, w);
    case Abort => assert CoverInv(c, s.(row := Aborting));
    case Read(w) => CoverRead(c, s, w);
    case Body(w, r, data) => CoverBody(c, s, w, r, data);
    case Answer(w, r) => CoverAnswer(c, s, w, r);
    case Write(w) => CoverWrite(c, s, w);
    case _ => CoverSession(c, s, e);
  }

  lemma CoverSession(c: Config, s: State, e: Event)
    requires CoverInv(c, s) && Step(c, s, e).Some?
    requires e.Lock? || e.Ends? || e.GivesUp? || e.Leave?
    ensures CoverInv(c, Step(c, s, e).value)
  {
    CoverOther(c, s, Step(c, s, e).value, e.w);
  }

  lemma CoverWrite(c: Config, s: State, w: nat)
    requires CoverInv(c, s) && w in s.sessions && s.sessions[w].pc.Deciding?
    ensures CoverInv(c, StepWrite(c, s, w))
  {
    WriteFrame(c, s, w);
    CoverOther(c, s, StepWrite(c, s, w), w);
  }

  lemma CoverBody(c: Config, s: State, w: nat, r: Reply, data: string)
    requires CoverInv(c, s) && w in s.sessions && s.sessions[w].pc.InBody?
    ensures CoverInv(c, StepBody(s, w, r, data))
  {
    CoverOther(c, s, StepBody(s, w, r, data), w);
  }

  lemma CoverAnswer(c: Config, s: State, w: nat, r: Reply)
    requires CoverInv(c, s) && w in s.sessions && s.sessions[w].pc.Undoing?
    ensures CoverInv(c, StepAnswer(s, w, r))
  {
    CoverOther(c, s, StepAnswer(s, w, r), w);
  }

  lemma CoverRead(c: Config, s: State, w: nat)
    requires CoverInv(c, s) && w in s.sessions && s.sessions[w].pc == Reading
    ensures CoverInv(c, StepRead(s, w))
  {
    ReadFrame(s, w);
    CoverOther(c, s, StepRead(s, w), w);
  }

  lemma {:induction false} CoverExec(c: Config, s: State, events: seq<Event>)
    requires c.may.Declares? && AllCompatible(c) && CoverInv(c, s) && (c.overlap || Inv(s)) && Exec(c, s, events).Some?
    ensures CoverInv(c, Exec(c, s, events).value)
    decreases |events|
  {
    if events != [] {
      CoverStep(c, s, events[0]);
      if !c.overlap {
        StepKeeps(c, s, events[0]);
      }
      CoverExec(c, Step(c, s, events[0]).value, events[1..]);
    }
  }

  // ---------- runs that leave a compensation out ----------

  /** One worker gets to position k, and nothing is stored there yet. */
  lemma FirstAt(c: Config, k: nat) returns (s: State, got: seq<RunResult>)
    requires Declared(c) && k <= c.width
    ensures Reachable(c, s) && Picked(c, s.acts, k) && |got| == k && s.row == Submitted && s.undoAcked == {} &&
      !s.diverged
    ensures s.sessions == map[0 := Session(Submitted, Running(got, map[]))]
    ensures (forall j :: j in s.acts ==> j < k) && (forall j :: j in s.undos ==> j < k)
  {
    var start := OneRunner(c);
    s, got := Walk(c, start, 0, map[], k);
    assert s.sessions == map[0 := s.sessions[0]];
  }

  /** After a crash the worker gets to position k again. */
  lemma AgainAt(c: Config, s: State, k: nat) returns (s': State, got: seq<RunResult>)
    requires Reachable(c, s) && Declared(c) && k <= c.width && Picked(c, s.acts, k)
    requires s.sessions.Keys == {0} && s.row == Submitted
    ensures Reachable(c, s') && |got| == k && s'.sessions == map[0 := Session(Submitted, Running(got, s.acts))]
    ensures k in s.undos ==> k in s'.undos && s'.undos[k] == s.undos[k]
    ensures (k in s'.acts <==> k in s.acts) && s'.diverged == s.diverged
  {
    var again := Restart(c, s);
    s', got := Walk(c, again, 0, s.acts, k);
    assert s'.sessions == map[0 := s'.sessions[0]];
  }

  /** The function declares an address where another one is stored: the body runs all the same. */
  lemma SecondAddress(c: Config, s: State, got: seq<RunResult>, recorded: Acts, e: Decl)
    requires Reachable(c, s) && CanOpen(c, s, 0, e) && s.sessions[0] == Session(Submitted, Running(got, recorded))
    requires Consult(recorded, e.k, e.name) == RunBody && UndoClash(s.undos, e.k, e.undo)
    ensures exists s' :: Reachable(c, s') && s'.diverged == s.diverged && Forgotten(s')
  {
    var s' := OpenOne(c, s, 0, e);
    assert Promise(e.k, e.undo.value) in s'.started;
    assert !StoredAsDeclared(s'.undos, Promise(e.k, e.undo.value));
  }

  /** A branch is opened, and its body answers with nothing certain. */
  lemma UnknownAt(c: Config, d: Decl) returns (s: State)
    requires Declared(c) && d in c.may.decls && d.k < c.width && d.undo.Some?
    ensures Reachable(c, s) && s.sessions.Keys == {0} && s.row == Submitted && !s.diverged && Picked(c, s.acts, d.k)
    ensures d.k in s.acts && s.acts[d.k] == ActRow(d.name, Pending, "")
    ensures d.k in s.undos && s.undos[d.k] == UndoRow(d.undo.value, Pending)
  {
    var got;
    s, got := FirstAt(c, d.k);
    s := OpenOne(c, s, 0, d);
    s := AnswerBody(c, s, 0, Unknown, "");
  }

  /** A branch is opened, its body answers with nothing certain, and after a crash the function
      declares another address for it: the name is the same, so the body runs, and the address is
      not stored. One runner at a time, either backend. */
  lemma AddressChangedRun(c: Config, d: Decl, e: Decl)
    requires Declared(c) && d in c.may.decls && e in c.may.decls && d.k == e.k < c.width && d.name == e.name
    requires d.undo.Some? && e.undo.Some? && d.undo != e.undo
    ensures exists s :: Reachable(c, s) && !s.diverged && Forgotten(s)
  {
    var s := UnknownAt(c, d);
    var t, again := AgainAt(c, s, d.k);
    SecondAddress(c, t, again, s.acts, e);
  }

  /** On Redis the worker may crash between the two commands of a registration. The address is
      stored without the name, so another name does not stop the next run either. */
  lemma HalfRegisteredRun(c: Config, d: Decl, e: Decl)
    requires Declared(c) && d in c.may.decls && e in c.may.decls && d.k == e.k < c.width && c.be == RedisBackend
    requires d.undo.Some? && e.undo.Some? && d.undo != e.undo
    ensures exists s :: Reachable(c, s) && !s.diverged && Forgotten(s)
  {
    var k := d.k;
    var s, got := FirstAt(c, k);
    s := Then(c, s, Branch(0, d.name, d.undo));
    assert s.undos[k].addr == d.undo.value && k !in s.acts;
    var t, again := AgainAt(c, s, k);
    SecondAddress(c, t, again, s.acts, e);
  }

  /** The second runner's registration clashes with the name the first one stored and is rolled back
      as a whole, and its body runs all the same. */
  lemma RolledBackRun(c: Config, d: Decl, e: Decl)
    requires Declared(c) && d in c.may.decls && e in c.may.decls && d.k == e.k < c.width
    requires c.overlap && c.be == SqlBackend && d.name != e.name && d.undo.Some? && d.undo != e.undo
    ensures exists s :: Reachable(c, s) && !s.diverged && Forgotten(s)
  {
    var k := d.k;
    var s := TwoRunners(c);
    var t, got := Walk(c, s, 0, map[], k);
    var u, got' := Walk(c, t, 1, map[], k);
    assert u.sessions[0] == Session(Submitted, Running(got, map[]));
    u := OpenOne(c, u, 0, e);
    assert k in u.acts && u.acts[k].name == e.name;
    assert u.sessions[1] == Session(Submitted, Running(got', map[]));
    u := OpenOne(c, u, 1, d);
    assert Promise(k, d.undo.value) in u.started && !StoredAsDeclared(u.undos, Promise(k, d.undo.value));
  }

  // ---------- exactly when the promises are kept ----------

  /** Over all runs of a function that may declare these branches: every compensation whose branch
      ever started is stored as it was declared, exactly when for each position any two
      declarations are compatible. */
  lemma CoveredExactly(c: Config)
    requires Declared(c)
    ensures Covered(c) <==> AllCompatible(c)
  {
    if AllCompatible(c) {
      forall s | Reachable(c, s)
        ensures !Forgotten(s)
      {
        var events :| Exec(c, INIT, events) == Some(s);
        CoverExec(c, INIT, events);
      }
    } else {
      var d, e :| d in c.may.decls && e in c.may.decls && d.k == e.k < c.width && !Compatible(c, d, e);
      UncoveredRun(c, d, e);
    }
  }

  lemma UncoveredRun(c: Config, d: Decl, e: Decl)
    requires Declared(c) && d in c.may.decls && e in c.may.decls && d.k == e.k < c.width && !Compatible(c, d, e)
    ensures !Covered(c)
  {
    if d.undo.None? {
      RolledBackRun(c, e, d);
    } else if e.undo.None? {
      RolledBackRun(c, d, e);
    } else if d.name == e.name {
      AddressChangedRun(c, d, e);
    } else if c.be == RedisBackend {
      HalfRegisteredRun(c, d, e);
    } else {
      RolledBackRun(c, d, e);
    }
  }

  /** Some compensation row exists for every branch with a declared compensation whose body ever
      started, though perhaps with another address, if runs do not overlap or the rows are in Redis. */
  lemma SomeCompensationStored(c: Config, s: State, x: Promise)
    requires Reachable(c, s) && x in s.started && (!c.overlap || c.be == RedisBackend)
    ensures x.k in s.undos
  {
    ReachableLoose(c, s);
    if !c.overlap {
      ReachableInv(c, s);
    }
  }

  // ---------- rollback ----------

  /** The compensations there are were declared. */
  ghost predicate UndosDeclared(c: Config, s: State) {
    forall k :: k in s.undos ==> SomeUndo(c, k)
  }

  ghost predicate SomeUndo(c: Config, k: nat) {
    exists name, addr :: FromDecl(c, k, name, Some(addr))
  }

  lemma UndosDeclaredStep(c: Config, s: State, e: Event)
    requires c.may.Declares? && UndosDeclared(c, s) && Step(c, s, e).Some?
    ensures UndosDeclared(c, Step(c, s, e).value)
  {
    match e
    case Branch(w, name, undo) => UndosDeclaredBranch(c, s, w, name, undo);
    case Read(w) => ReadFrame(s, w);
    case Enlist(w) => assert StepEnlist(s, w).undos == s.undos;
    case Answer(w, r) => assert StepAnswer(s, w, r).undos.Keys == s.undos.Keys;
    case Body(w, r, data) => assert StepBody(s, w, r, data).undos == s.undos;
    case Write(w) => assert StepWrite(c, s, w).undos == s.undos;
    case _ =>
  }

  lemma UndosDeclaredBranch(c: Config, s: State, w: nat, name: string, undo: Option<string>)
    requires UndosDeclared(c, s) && w in s.sessions && s.sessions[w].pc.Running? && |s.sessions[w].pc.got| < c.width
    requires c.may.Declares? && Allows(c.may, s.sessions[w].pc.got, OpenBranch(name, undo))
    ensures UndosDeclared(c, StepBranch(c, s, w, name, undo))
  {
    var k, s' := |s.sessions[w].pc.got|, StepBranch(c, s, w, name, undo);
    assert undo.Some? ==> FromDecl(c, k, name, Some(undo.value));
    assert s'.undos.Keys <= s.undos.Keys + if undo.Some? then {k} else {};
  }

  lemma {:induction false} UndosDeclaredExec(c: Config, s: State, events: seq<Event>)
    requires c.may.Declares? && UndosDeclared(c, s) && Exec(c, s, events).Some?
    ensures UndosDeclared(c, Exec(c, s, events).value)
    decreases |events|
  {
    if events != [] {
      UndosDeclaredStep(c, s, events[0]);
      UndosDeclaredExec(c, Step(c, s, events[0]).value, events[1..]);
    }
  }

  /** A runner that has outlived an abort opens a branch when the rollback is already over. */
  lemma LateBranchRun(c: Config, d: Decl)
    requires Declared(c) && d in c.may.decls && d.k < c.width && d.undo.Some? && c.overlap
    ensures exists s :: Reachable(c, s) && s.row == Failed && s.undoAcked != s.undos.Keys
  {
    var s, got := FirstAt(c, d.k);
    s := Then(c, s, Abort);
    s := Then(c, s, Lock(1));
    assert s.sessions == map[0 := Session(Submitted, Running(got, map[])), 1 := Session(Aborting, Reading)];
    Begin(c, s, 1);
    s := RollbackCompletes(c, s, s, 1);
    assert s.sessions == map[0 := Session(Submitted, Running(got, map[]))];
    s := OpenOne(c, s, 0, d);
    assert d.k in s.undos && d.k !in s.undoAcked;
  }

  /** The compensation of a branch after the last legible number is never called. */
  lemma IllegibleRun(c: Config, d: Decl)
    requires Declared(c) && d in c.may.decls && d.k < c.width && d.undo.Some? && d.k > MAX_BRANCH_INDEX
    ensures exists s :: Reachable(c, s) && s.row == Failed && s.undoAcked != s.undos.Keys
  {
    var s, got := FirstAt(c, d.k);
    s := OpenOne(c, s, 0, d);
    s := AbortedAndFailed(c, s);
    assert d.k in s.undos && d.k !in s.undoAcked;
  }

  /** The caller aborts, the only worker crashes, and another one rolls back. */
  lemma AbortedAndFailed(c: Config, s: State) returns (s': State)
    requires Reachable(c, s) && s.row == Submitted && s.sessions.Keys == {0}
    ensures Reachable(c, s') && s'.row == Failed
    ensures s'.undos.Keys == s.undos.Keys && s'.undoAcked <= s.undoAcked + Legible(s.undos)
  {
    s' := Then(c, s, Abort);
    s' := Then(c, s', Leave(0));
    assert s'.sessions == map[];
    s' := AbortingRowEnds(c, s', 0);
  }

  /** Failed means that exactly the registered compensations were acknowledged, exactly when every
      compensation is declared below the limit of legible numbers, and runs do not overlap. */
  lemma FailedIsUndoneExactly(c: Config)
    requires Declared(c)
    ensures FailedIsUndone(c) <==>
            forall d :: d in c.may.decls && d.k < c.width && d.undo.Some? ==> !c.overlap && d.k <= MAX_BRANCH_INDEX
  {
    if d :| d in c.may.decls && d.k < c.width && d.undo.Some? && (c.overlap || d.k > MAX_BRANCH_INDEX) {
      if c.overlap {
        LateBranchRun(c, d);
      } else {
        IllegibleRun(c, d);
      }
    } else {
      forall s | Reachable(c, s) && s.row == Failed
        ensures s.undoAcked == s.undos.Keys
      {
        FailedMeansUndone(c, s);
      }
    }
  }

  lemma FailedMeansUndone(c: Config, s: State)
    requires c.may.Declares? && Reachable(c, s) && s.row == Failed
    requires forall d :: d in c.may.decls && d.k < c.width && d.undo.Some? ==> !c.overlap && d.k <= MAX_BRANCH_INDEX
    ensures s.undoAcked == s.undos.Keys
  {
    ReachableLoose(c, s);
    var events :| Exec(c, INIT, events) == Some(s);
    UndosDeclaredExec(c, INIT, events);
    if !c.overlap {
      ReachableInv(c, s);
    }
    forall k | k in s.undos
      ensures k in s.undoAcked
    {
      assert SomeUndo(c, k);
      var name, addr :| FromDecl(c, k, name, Some(addr));
      assert Decl(k, name, Some(addr)) in c.may.decls;
      assert k in Legible(s.undos);
    }
  }

  // ---------- running a body again ----------

  /** The second runner executes a branch whose result the first has stored meanwhile. */
  lemma RerunRun(c: Config)
    requires Declared(c) && c.overlap && c.width > 0
    ensures exists s :: Reachable(c, s) && s.reran
  {
    var s := TwoRunners(c);
    var d := Pick(c, 0);
    s := OpenOne(c, s, 0, d);
    s := AnswerBody(c, s, 0, Success, "x");
    assert 0 in s.acts && s.acts[0].status == Done;
    assert s.sessions[1] == FRESH;
    s := OpenOne(c, s, 1, d);
  }

  /** No body runs again after its result was stored, exactly when runs do not overlap. */
  lemma NeverRerunExactly(c: Config)
    requires Declared(c)
    ensures NeverRerun(c) <==> !c.overlap || c.width == 0
  {
    if c.overlap && c.width > 0 {
      RerunRun(c);
    } else {
      forall s | Reachable(c, s)
        ensures !s.reran
      {
        if c.overlap {
          NothingStarts(c, s);
        } else {
          ReachableInv(c, s);
        }
      }
    }
  }

  ghost predicate NoneOpen(s: State) {
    !s.reran && forall w :: w in s.sessions ==> !s.sessions[w].pc.Enlisting?
  }

  lemma IdleStep(c: Config, s: State, e: Event)
    requires c.width == 0 && NoneOpen(s) && Step(c, s, e).Some?
    ensures NoneOpen(Step(c, s, e).value)
  {
    match e
    case Read(w) => ReadFrame(s, w);
    case Write(w) => WriteFrame(c, s, w);
    case _ =>
  }

  lemma {:induction false} NothingStartsFrom(c: Config, s: State, events: seq<Event>)
    requires c.width == 0 && NoneOpen(s) && Exec(c, s, events).Some?
    ensures NoneOpen(Exec(c, s, events).value)
    decreases |events|
  {
    if events != [] {
      IdleStep(c, s, events[0]);
      NothingStartsFrom(c, Step(c, s, events[0]).value, events[1..]);
    }
  }

  lemma NothingStarts(c: Config, s: State)
    requires c.width == 0 && Reachable(c, s)
    ensures !s.reran
  {
    var events :| Exec(c, INIT, events) == Some(s);
    NothingStartsFrom(c, INIT, events);
  }

  /** With one runner at a time, compensations are called highest first: when one has been called,
      every later branch's compensation has been acknowledged; and only registered ones are called. */
  lemma UndoneInReverse(c: Config, s: State, i: nat, j: nat)
    requires !c.overlap && Reachable(c, s) && i in s.undoCalled
    ensures i in s.undos && i <= MAX_BRANCH_INDEX
    ensures i < j <= MAX_BRANCH_INDEX && j in s.undos ==> j in s.undoAcked
  {
    ReachableInv(c, s);
    assert j in s.undos && j <= MAX_BRANCH_INDEX ==> j in Legible(s.undos);
  }
}
