/** The branch barrier: insert-if-absent decides whether a delivered branch call runs its business
    logic. The SQL form keeps the record in the business transaction; the Redis form keeps keys
    and runs decision and business logic in one script. Both are the same judgement over a table
    of keys, proved here to be a four-state machine per branch. */
module Barrier {
  import opened Types
  import opened BranchIds

  datatype Decision = Execute | NullCompensation | Duplicated

  // ---------- the judgement, for any kind of key ----------

  /** Insert unless present; the count is the number of rows inserted. */
  function InsertIgnore<K, V>(rows: map<K, V>, key: K, mark: V): (map<K, V>, nat) {
    if key in rows then (rows, 0) else (rows[key := mark], 1)
  }

  /** A compensating call first takes its origin's place; if that place was free the origin never
      ran. Then every call takes its own place; if that was taken the call is a repetition. */
  function Judge<K, V>(rows: map<K, V>, own: K, ownMark: V, origin: Option<K>, originMark: V): (map<K, V>, Decision) {
    match origin
    case None =>
      var (rows', n) := InsertIgnore(rows, own, ownMark);
      (rows', if n == 0 then Duplicated else Execute)
    case Some(o) =>
      var (rows1, m) := InsertIgnore(rows, o, originMark);
      var (rows2, n) := InsertIgnore(rows1, own, ownMark);
      (rows2, if m > 0 then NullCompensation else if n == 0 then Duplicated else Execute)
  }

  // ---------- SQL form ----------

  datatype Key = Key(gid: string, branch: string, op: BranchOp, barrierId: string)

  /** The key of the forward operation that a compensating call undoes. */
  function OriginKey(k: Key): Option<Key> {
    match k.op.OriginOp()
    case None => None
    case Some(o) => Some(k.(op := o))
  }

  /** Both rows a call inserts carry the caller's own operation as their reason. */
  function Decide(rows: map<Key, BranchOp>, k: Key): (map<Key, BranchOp>, Decision) {
    Judge(rows, k, k.op, OriginKey(k), k.op)
  }

  /** The barrier table as one business transaction sees it. */
  class BarrierTable {
    var rows: map<Key, BranchOp>

    constructor ()
      ensures rows == map[]
    {
      rows := map[];
    }

    method Insert(key: Key, reason: BranchOp) returns (n: nat)
      modifies this
      ensures (rows, n) == InsertIgnore(old(rows), key, reason)
    {
      if key in rows {
        n := 0;
      } else {
        rows := rows[key := reason];
        n := 1;
      }
    }
  }

  class BranchBarrier {
    const gid: string
    const branch: string
    const op: BranchOp
    var counter: nat

    constructor (gid: string, branch: string, op: BranchOp)
      ensures this.gid == gid && this.branch == branch && this.op == op && counter == 0
    {
      this.gid, this.branch, this.op, counter := gid, branch, op, 0;
    }

    method NextBarrierId() returns (id: string)
      modifies this
      ensures counter == old(counter) + 1 && id == Pad2(counter)
    {
      counter := counter + 1;
      id := Pad2(counter);
    }

    /** The n-th call on one barrier object uses the n-th barrier id. */
    method DecideCall(table: BarrierTable) returns (d: Decision)
      modifies this, table
      ensures counter == old(counter) + 1
      ensures (table.rows, d) == Decide(old(table.rows), Key(gid, branch, op, Pad2(counter)))
    {
      var bid := NextBarrierId();
      var originAffected := 0;
      match op.OriginOp() {
        case Some(origin) => originAffected := table.Insert(Key(gid, branch, origin, bid), op);
        case None =>
      }
      var currentAffected := table.Insert(Key(gid, branch, op, bid), op);
      if op.IsCompensating() && originAffected > 0 {
        return NullCompensation;
      }
      if currentAffected == 0 {
        return Duplicated;
      }
      return Execute;
    }
  }

  // ---------- the machine it implements ----------

  /** Everything that can be said about one forward/undo pair under one barrier id. */
  datatype Phase = Fresh | Ran | Undone | Blocked

  datatype Slot = Slot(gid: string, branch: string, barrierId: string, fwd: BranchOp, bwd: BranchOp) {
    predicate Valid() {
      bwd.OriginOp() == Some(fwd)
    }

    function FwdKey(): Key {
      Key(gid, branch, fwd, barrierId)
    }

    function BwdKey(): Key {
      Key(gid, branch, bwd, barrierId)
    }
  }

  function PhaseStep(p: Phase, undo: bool): (Phase, Decision) {
    match p
    case Fresh => if undo then (Blocked, NullCompensation) else (Ran, Execute)
    case Ran => if undo then (Undone, Execute) else (Ran, Duplicated)
    case _ => (p, Duplicated)
  }

  function PhaseOf(rows: map<Key, BranchOp>, s: Slot): Phase {
    if s.FwdKey() !in rows then Fresh
    else if s.BwdKey() !in rows then Ran
    else if rows[s.FwdKey()] == s.fwd then Undone
    else Blocked
  }

  predicate SlotOk(rows: map<Key, BranchOp>, s: Slot) {
    && (s.BwdKey() in rows ==> s.FwdKey() in rows)
    && (s.FwdKey() in rows && s.BwdKey() !in rows ==> rows[s.FwdKey()] == s.fwd)
  }

  /** One business transaction around one decision. */
  datatype Tx = Tx(key: Key, commit: bool)

  function Apply(rows: map<Key, BranchOp>, tx: Tx): map<Key, BranchOp> {
    if tx.commit then Decide(rows, tx.key).0 else rows
  }

  function ApplyAll(rows: map<Key, BranchOp>, txs: seq<Tx>): map<Key, BranchOp> {
    if txs == [] then rows else Apply(ApplyAll(rows, txs[..|txs| - 1]), txs[|txs| - 1])
  }

  /** How many committed transactions were told to execute under the given key. */
  function Executions(rows: map<Key, BranchOp>, txs: seq<Tx>, key: Key): nat {
    if txs == [] then 0
    else
      var tx := txs[|txs| - 1];
      var before := txs[..|txs| - 1];
      Executions(rows, before, key) +
      if tx.commit && tx.key == key && Decide(ApplyAll(rows, before), tx.key).1 == Execute then 1 else 0
  }

  /** Only one of the operations that undo `s.fwd` is ever used on this branch. */
  predicate Paired(txs: seq<Tx>, s: Slot) {
    forall tx :: tx in txs && tx.key.gid == s.gid && tx.key.branch == s.branch && tx.key.op.OriginOp() == Some(s.fwd)
      ==> tx.key.op == s.bwd
  }

  /** The pairs there are: cancel undoes try, and compensate and rollback both undo action. */
  lemma PairsAre(s: Slot)
    ensures s.Valid() <==> (s.fwd == Try && s.bwd == Cancel) || (s.fwd == Action && s.bwd == Compensate)
                           || (s.fwd == Action && s.bwd == BranchOp.Rollback)
  {
  }

  /** This call undoes that one: same branch, same barrier id, and the operations of a pair. */
  predicate Undoes(k: Key, o: Key) {
    && k.gid == o.gid && k.branch == o.branch && k.barrierId == o.barrierId
    && ((k.op == Cancel && o.op == Try) || (k.op == Compensate && o.op == Action)
        || (k.op == BranchOp.Rollback && o.op == Action))
  }

  /** The decision in terms of the table: a call that undoes what has left no record is a null
      compensation; any other call with a record of its own is a repetition; and the rest execute. The
      record of a call, and of what it undoes, is there afterwards; no other record comes or changes. */
  lemma DecisionExactly(rows: map<Key, BranchOp>, k: Key)
    ensures
      var (rows', d) := Decide(rows, k);
      && (d == NullCompensation <==> exists o :: Undoes(k, o) && o !in rows)
      && (d == Duplicated <==> k in rows && forall o :: Undoes(k, o) ==> o in rows)
      && (d == Execute <==> k !in rows && forall o :: Undoes(k, o) ==> o in rows)
      && (forall m :: m in rows' <==> m in rows || m == k || Undoes(k, m))
      && (forall m :: m in rows ==> rows'[m] == rows[m])
      && (forall m :: m in rows' && m !in rows ==> rows'[m] == k.op)
  {
    forall o
      ensures Undoes(k, o) <==> OriginKey(k) == Some(o)
    {
    }
    if OriginKey(k).Some? {
      assert Undoes(k, OriginKey(k).value);
    }
  }

  /** One call of the pair is one step of the machine, and a call of any other pair is none. */
  lemma DecideRefines(rows: map<Key, BranchOp>, s: Slot, k: Key)
    requires s.Valid() && SlotOk(rows, s)
    requires k.gid == s.gid && k.branch == s.branch && k.op.OriginOp() == Some(s.fwd) ==> k.op == s.bwd
    ensures
      var (rows', d) := Decide(rows, k);
      && SlotOk(rows', s)
      && (if k == s.FwdKey() || k == s.BwdKey()
          then (PhaseOf(rows', s), d) == PhaseStep(PhaseOf(rows, s), k == s.BwdKey())
          else PhaseOf(rows', s) == PhaseOf(rows, s))
  {
  }

  /** For every sequence of committed and rolled-back calls, in any order and with any repetition:
      the phase tells exactly how often forward and undo ran. So each runs at most once, undo only
      when forward ran, and neither in a blocked branch. */
  lemma {:induction false} PhaseCountsRuns(txs: seq<Tx>, s: Slot)
    requires s.Valid() && Paired(txs, s)
    ensures
      var rows := ApplyAll(map[], txs);
      var f := Executions(map[], txs, s.FwdKey());
      var b := Executions(map[], txs, s.BwdKey());
      && SlotOk(rows, s)
      && match PhaseOf(rows, s)
         case Fresh => f == 0 && b == 0
         case Ran => f == 1 && b == 0
         case Undone => f == 1 && b == 1
         case Blocked => f == 0 && b == 0
  {
    if txs != [] {
      var before := txs[..|txs| - 1];
      var tx := txs[|txs| - 1];
      PhaseCountsRuns(before, s);
      DecideRefines(ApplyAll(map[], before), s, tx.key);
    }
  }

  /** Once an undo call has committed, whatever it was told, no later forward call executes. */
  lemma {:induction false} UndoBlocksForward(txs: seq<Tx>, later: seq<Tx>, s: Slot)
    requires s.Valid() && Paired(txs + later, s)
    requires s.BwdKey() in ApplyAll(map[], txs)
    ensures s.BwdKey() in ApplyAll(map[], txs + later)
    ensures Executions(map[], txs + later, s.FwdKey()) == Executions(map[], txs, s.FwdKey())
    ensures Executions(map[], txs + later, s.BwdKey()) == Executions(map[], txs, s.BwdKey())
    decreases |later|
  {
    if later == [] {
      assert txs + later == txs;
    } else {
      var all := txs + later;
      var shorter := later[..|later| - 1];
      assert all[..|all| - 1] == txs + shorter;
      UndoBlocksForward(txs, shorter, s);
      PhaseCountsRuns(txs + shorter, s);
      DecideRefines(ApplyAll(map[], txs + shorter), s, all[|all| - 1].key);
    }
  }

  /** Why the pairing is needed: compensate and rollback share the origin "action", so a rollback
      that follows a null compensation executes although the action never ran. */
  lemma MixedUndoRuns()
    ensures
      var undo := Key("g", "01", Compensate, "01");
      var roll := Key("g", "01", Rollback, "01");
      && Decide(map[], undo).1 == NullCompensation
      && Decide(Decide(map[], undo).0, roll).1 == Execute
  {
  }

  // ---------- Redis form ----------

  datatype Mark = OriginMark | OwnMark | RollbackMark

  datatype Outcome = Executed | SkippedNull | SkippedDuplicate | BusinessRefused

  function OpName(op: BranchOp): string {
    match op
    case Action => "action"
    case Compensate => "compensate"
    case Try => "try"
    case Confirm => "confirm"
    case Cancel => "cancel"
    case Commit => "commit"
    case Rollback => "rollback"
  }

  /** The five parts joined with dashes. */
  function RedisKey(prefix: string, k: Key): string {
    prefix + k.gid + "-" + k.branch + "-" + OpName(k.op) + "-" + k.barrierId
  }

  function RedisOrigin(prefix: string, k: Key): Option<string> {
    match OriginKey(k)
    case None => None
    case Some(o) => Some(RedisKey(prefix, o))
  }

  function RedisJudge(keys: map<string, Mark>, prefix: string, k: Key): (map<string, Mark>, Decision) {
    Judge(keys, RedisKey(prefix, k), OwnMark, RedisOrigin(prefix, k), OriginMark)
  }

  /** The whole script. The keys stay even when the business part refuses. */
  function RedisCall(keys: map<string, Mark>, prefix: string, k: Key, refuses: bool): (map<string, Mark>, Outcome) {
    var (keys', d) := RedisJudge(keys, prefix, k);
    (keys', match d
            case NullCompensation => SkippedNull
            case Duplicated => SkippedDuplicate
            case Execute => if refuses then BusinessRefused else Executed)
  }

  /** The outcome in terms of the keys. A call whose origin's key is free is a null compensation; one
      whose own key is taken is otherwise a repetition; and the rest reach the business part, which
      executes or refuses. Both keys are there afterwards in every case. */
  lemma OutcomeExactly(keys: map<string, Mark>, prefix: string, k: Key, refuses: bool)
    ensures
      var (keys', r) := RedisCall(keys, prefix, k, refuses);
      var own := RedisKey(prefix, k);
      && (r == SkippedNull <==> exists o :: Undoes(k, o) && RedisKey(prefix, o) !in keys)
      && (r == SkippedDuplicate <==> own in keys && forall o :: Undoes(k, o) ==> RedisKey(prefix, o) in keys)
      && (r == BusinessRefused <==>
            own !in keys && (forall o :: Undoes(k, o) ==> RedisKey(prefix, o) in keys) && refuses)
      && (r == Executed <==>
            own !in keys && (forall o :: Undoes(k, o) ==> RedisKey(prefix, o) in keys) && !refuses)
      && (forall m :: m in keys' <==> m in keys || m == own || exists o :: Undoes(k, o) && m == RedisKey(prefix, o))
      && (forall m :: m in keys ==> keys'[m] == keys[m])
      && (forall m :: m in keys' && m !in keys ==> keys'[m] == if m == own then OwnMark else OriginMark)
  {
    forall o
      ensures Undoes(k, o) <==> OriginKey(k) == Some(o)
    {
    }
    if OriginKey(k).Some? {
      var o := OriginKey(k).value;
      assert Undoes(k, o);
      OwnIsNotOrigin(prefix, k, o);
    }
  }

  lemma OwnIsNotOrigin(prefix: string, k: Key, o: Key)
    requires Undoes(k, o)
    ensures RedisKey(prefix, k) != RedisKey(prefix, o)
  {
    assert |OpName(k.op)| != |OpName(o.op)|;
    assert |RedisKey(prefix, k)| != |RedisKey(prefix, o)|;
  }

  class RedisBarrier {
    const prefix: string
    const gid: string
    const branch: string
    const op: BranchOp
    var counter: nat

    constructor (prefix: string, gid: string, branch: string, op: BranchOp)
      ensures this.prefix == prefix && this.gid == gid && this.branch == branch && this.op == op && counter == 0
    {
      this.prefix, this.gid, this.branch, this.op, counter := prefix, gid, branch, op, 0;
    }

    /** `call`: SET NX on the origin's key, SET NX on the own key, then the business part. */
    method RunScript(db: RedisDb, refuses: bool) returns (r: Outcome)
      modifies this, db
      ensures counter == old(counter) + 1
      ensures (db.keys, r) == RedisCall(old(db.keys), prefix, Key(gid, branch, op, Pad2(counter)), refuses)
      ensures r == BusinessRefused || r == Executed ==>
        RedisKey(prefix, Key(gid, branch, op, Pad2(counter))) !in old(db.keys)
      ensures r == BusinessRefused ==> refuses
      ensures r == Executed ==> !refuses
      ensures r == SkippedDuplicate ==> RedisKey(prefix, Key(gid, branch, op, Pad2(counter))) in old(db.keys)
      ensures r == SkippedNull ==>
        && (op == Cancel || op == Compensate || op == BranchOp.Rollback)
        && RedisKey(prefix, Key(gid, branch, if op == Cancel then Try else Action, Pad2(counter))) !in old(db.keys)
    {
      counter := counter + 1;
      var bid := Pad2(counter);
      var originGot := false;
      match op.OriginOp() {
        case Some(origin) => originGot := db.SetNx(RedisKey(prefix, Key(gid, branch, origin, bid)), OriginMark);
        case None =>
      }
      var curGot := db.SetNx(RedisKey(prefix, Key(gid, branch, op, bid)), OwnMark);
      if op.IsCompensating() && originGot {
        return SkippedNull;
      }
      if !curGot {
        return SkippedDuplicate;
      }
      return if refuses then BusinessRefused else Executed;
    }
  }

  class RedisDb {
    var keys: map<string, Mark>

    constructor ()
      ensures keys == map[]
    {
      keys := map[];
    }

    method SetNx(key: string, mark: Mark) returns (got: bool)
      modifies this
      ensures got == (key !in old(keys))
      ensures keys == InsertIgnore(old(keys), key, mark).0
    {
      got := key !in keys;
      if got {
        keys := keys[key := mark];
      }
    }
  }

  // ---------- Redis keys against SQL keys ----------

  predicate NoDash(s: string) {
    '-' !in s
  }

  /** A string splits at its last dash in one way only. */
  lemma LastDashUnique(a: string, x: string, b: string, y: string)
    requires NoDash(x) && NoDash(y) && a + "-" + x == b + "-" + y
    ensures a == b && x == y
  {
    var s := a + "-" + x;
    assert s[|a|] == '-' && s[|b|] == '-';
    assert |a| == |b|;
    assert a == s[..|a|] && b == s[..|b|];
    assert x == s[|a| + 1..] && y == s[|b| + 1..];
  }

  lemma OpNameInjective(o: BranchOp, p: BranchOp)
    ensures NoDash(OpName(o))
    ensures OpName(o) == OpName(p) ==> o == p
  {
    assert |OpName(o)| != |OpName(p)| || OpName(o)[..2] != OpName(p)[..2] || OpName(o)[2] != OpName(p)[2] || o == p;
  }

  /** Barrier ids are numbers and have no dash, so two calls share a key string exactly when they are
      the same operation under the same barrier id, and gid and branch number, joined with a dash,
      read the same. */
  lemma RedisKeyExactly(prefix: string, k: Key, m: Key)
    requires NoDash(k.barrierId) && NoDash(m.barrierId)
    ensures RedisKey(prefix, k) == RedisKey(prefix, m) <==>
            k.op == m.op && k.barrierId == m.barrierId && k.gid + "-" + k.branch == m.gid + "-" + m.branch
  {
    assert RedisKey(prefix, k) == prefix + (k.gid + "-" + k.branch) + "-" + OpName(k.op) + "-" + k.barrierId;
    assert RedisKey(prefix, m) == prefix + (m.gid + "-" + m.branch) + "-" + OpName(m.op) + "-" + m.barrierId;
    if RedisKey(prefix, k) == RedisKey(prefix, m) {
      OpNameInjective(k.op, m.op);
      OpNameInjective(m.op, k.op);
      LastDashUnique(prefix + k.gid + "-" + k.branch + "-" + OpName(k.op), k.barrierId,
                     prefix + m.gid + "-" + m.branch + "-" + OpName(m.op), m.barrierId);
      LastDashUnique(prefix + k.gid + "-" + k.branch, OpName(k.op), prefix + m.gid + "-" + m.branch, OpName(m.op));
      var kk, mm := k.gid + "-" + k.branch, m.gid + "-" + m.branch;
      assert prefix + k.gid + "-" + k.branch == prefix + kk && prefix + m.gid + "-" + m.branch == prefix + mm;
      assert kk == (prefix + kk)[|prefix|..] && mm == (prefix + mm)[|prefix|..];
    }
  }

  /** Which transactions and which branch numbers share one Redis. */
  datatype Scope = Scope(gids: iset<string>, branches: iset<string>) {
    ghost predicate Has(k: Key) {
      k.gid in gids && k.branch in branches && NoDash(k.barrierId)
    }

    /** Gid and branch number can be told apart in the joined string. */
    ghost predicate Separable() {
      forall g, h, b, c :: g in gids && h in gids && b in branches && c in branches && g + "-" + b == h + "-" + c ==>
        g == h && b == c
    }
  }

  ghost const ANY_GID: iset<string> := iset gid: string | true

  /** Within one transaction branch numbers never run into each other, dashes or not. */
  lemma OneTransactionIsSeparable(gid: string, branches: iset<string>)
    ensures Scope(iset{gid}, branches).Separable()
  {
    forall b, c | b in branches && c in branches && gid + "-" + b == gid + "-" + c
      ensures b == c
    {
      var s := gid + "-" + b;
      assert b == s[|gid| + 1..] && c == s[|gid| + 1..];
    }
  }

  /** Over all transactions they do not exactly when no branch number ends in a dash and another
      branch number. */
  lemma AnyTransactionSeparableExactly(branches: iset<string>)
    ensures Scope(ANY_GID, branches).Separable() <==>
            forall b, c, x: string :: b in branches && c in branches ==> b != x + "-" + c
  {
    if b, c, x: string :| b in branches && c in branches && b == x + "-" + c {
      assert "g" + "-" + b == ("g-" + x) + "-" + c;
      assert "g" != "g-" + x;
    }
    if !Scope(ANY_GID, branches).Separable() {
      var g, h, b, c :| b in branches && c in branches && g + "-" + b == h + "-" + c && !(g == h && b == c);
      if |b| < |c| {
        EndsInOther(h, c, g, b);
      } else {
        EndsInOther(g, b, h, c);
      }
    }
  }

  lemma EndsInOther(g: string, b: string, h: string, c: string)
    requires g + "-" + b == h + "-" + c && |b| >= |c| && !(g == h && b == c)
    ensures exists x: string :: b == x + "-" + c
  {
    var s := g + "-" + b;
    assert c == s[|h| + 1..] && b == s[|g| + 1..] && g == s[..|g|] && h == s[..|h|];
    var x := b[..|b| - |c| - 1];
    assert s[|h|] == '-' && b[|x|] == s[|h|];
    assert b == x + "-" + c;
  }

  /** The fan-out numbers of a message are such numbers: "01-02" ends in a dash and "02". */
  lemma FanOutNumbersCollide(i: nat, j: nat)
    ensures !Scope(ANY_GID, iset{Pad2(i + 1) + "-" + Pad2(j + 1), BranchId(j)}).Separable()
  {
    var b := Pad2(i + 1) + "-" + Pad2(j + 1);
    AnyTransactionSeparableExactly(iset{b, BranchId(j)});
    assert b == Pad2(i + 1) + "-" + BranchId(j);
  }

  /** The key tables hold the same keys, as far as the scope goes. */
  ghost predicate SameKeys(prefix: string, sc: Scope, keys: map<string, Mark>, rows: map<Key, BranchOp>) {
    forall k: Key :: sc.Has(k) ==> (RedisKey(prefix, k) in keys <==> k in rows)
  }

  /** In a separable scope the script gives the same decision as the SQL form, and the two stay in
      step. */
  lemma RedisSameDecision(prefix: string, sc: Scope, keys: map<string, Mark>, rows: map<Key, BranchOp>, k: Key)
    requires sc.Separable() && sc.Has(k) && SameKeys(prefix, sc, keys, rows)
    ensures RedisJudge(keys, prefix, k).1 == Decide(rows, k).1
    ensures SameKeys(prefix, sc, RedisJudge(keys, prefix, k).0, Decide(rows, k).0)
  {
    match OriginKey(k) {
      case None => SameInsert(prefix, sc, keys, rows, k, OwnMark, k.op);
      case Some(o) =>
        SameInsert(prefix, sc, keys, rows, o, OriginMark, k.op);
        SameInsert(prefix, sc, InsertIgnore(keys, RedisKey(prefix, o), OriginMark).0, InsertIgnore(rows, o, k.op).0, k,
          OwnMark, k.op);
    }
  }

  lemma SameInsert(prefix: string, sc: Scope, keys: map<string, Mark>, rows: map<Key, BranchOp>, k: Key, mark: Mark,
                   reason: BranchOp)
    requires sc.Separable() && sc.Has(k) && SameKeys(prefix, sc, keys, rows)
    ensures
      var (keys', n) := InsertIgnore(keys, RedisKey(prefix, k), mark);
      var (rows', n') := InsertIgnore(rows, k, reason);
      n == n' && SameKeys(prefix, sc, keys', rows')
  {
    forall m: Key | sc.Has(m)
      ensures RedisKey(prefix, m) == RedisKey(prefix, k) <==> m == k
    {
      RedisKeyExactly(prefix, k, m);
    }
  }

  function DecideAll(calls: seq<Key>): map<Key, BranchOp> {
    if calls == [] then map[] else Decide(DecideAll(calls[..|calls| - 1]), calls[|calls| - 1]).0
  }

  /** After any history of calls in the scope, the next one is decided alike by both forms. */
  ghost predicate DecidesAlike(prefix: string, sc: Scope) {
    forall calls: seq<Key>, k: Key ::
      (forall i :: 0 <= i < |calls| ==> sc.Has(calls[i])) && sc.Has(k) ==>
        RedisJudge(RedisCallAll(map[], prefix, calls), prefix, k).1 == Decide(DecideAll(calls), k).1
  }

  lemma {:induction false} HistoriesAlike(prefix: string, sc: Scope, calls: seq<Key>)
    requires sc.Separable() && forall i :: 0 <= i < |calls| ==> sc.Has(calls[i])
    ensures SameKeys(prefix, sc, RedisCallAll(map[], prefix, calls), DecideAll(calls))
    decreases |calls|
  {
    if calls != [] {
      var front := calls[..|calls| - 1];
      HistoriesAlike(prefix, sc, front);
      RedisSameDecision(prefix, sc, RedisCallAll(map[], prefix, front), DecideAll(front), calls[|calls| - 1]);
    }
  }

  /** The Redis form decides every history as the SQL form does, exactly when the transactions and
      branch numbers in use are separable: always within one transaction, and over all transactions
      when no branch number ends in a dash and another one. */
  lemma RedisDecidesAlikeExactly(prefix: string, sc: Scope)
    ensures DecidesAlike(prefix, sc) <==> sc.Separable()
  {
    if sc.Separable() {
      forall calls: seq<Key>, k: Key | (forall i :: 0 <= i < |calls| ==> sc.Has(calls[i])) && sc.Has(k)
        ensures RedisJudge(RedisCallAll(map[], prefix, calls), prefix, k).1 == Decide(DecideAll(calls), k).1
      {
        HistoriesAlike(prefix, sc, calls);
        RedisSameDecision(prefix, sc, RedisCallAll(map[], prefix, calls), DecideAll(calls), k);
      }
    } else {
      var g, h, b, c :| g in sc.gids && h in sc.gids && b in sc.branches && c in sc.branches
                        && g + "-" + b == h + "-" + c && !(g == h && b == c);
      RedisKeyCollision(prefix, g, b, h, c);
      var k, m := Key(g, b, Action, "01"), Key(h, c, Action, "01");
      assert sc.Has(k) && sc.Has(m) && [k][..0] == [];
      assert RedisCallAll(map[], prefix, [k]) == RedisJudge(map[], prefix, k).0;
      assert DecideAll([k]) == Decide(map[], k).0;
    }
  }

  /** Two actions whose gid and branch number read the same when joined: the second one is judged a
      duplicate of the first and never runs. */
  lemma RedisKeyCollision(prefix: string, g: string, b: string, h: string, c: string)
    requires g + "-" + b == h + "-" + c && !(g == h && b == c)
    ensures
      var k, m := Key(g, b, Action, "01"), Key(h, c, Action, "01");
      && k != m
      && RedisJudge(RedisJudge(map[], prefix, k).0, prefix, m).1 == Duplicated
      && Decide(Decide(map[], k).0, m).1 == Execute
  {
    var k, m := Key(g, b, Action, "01"), Key(h, c, Action, "01");
    RedisKeyExactly(prefix, k, m);
  }

  // ---------- asking about a prepared message ----------

  function QueryKey(gid: string): Key {
    Key(gid, "01", Action, "01")
  }

  /** The key in full: the one of the action of branch "01" under the first barrier id, which is what the
      local transaction of a message is recorded under. */
  lemma QueryKeyText(prefix: string, gid: string)
    ensures RedisKey(prefix, QueryKey(gid)) == prefix + gid + "-01-action-01"
    ensures QueryKey(gid) == Key(gid, BranchId(0), Action, Pad2(1))
  {
    assert Decimal(1) == "1" && Pad2(1) == "01";
    assert prefix + gid + "-" + "01" + "-" + "action" + "-" + "01" == prefix + gid + "-01-action-01";
  }

  /** `query_prepared`: an unseen transaction is marked rolled back on the spot. The flag says
      whether the local transaction is reported as committed. */
  function QueryPrepared(keys: map<string, Mark>, prefix: string, gid: string): (map<string, Mark>, bool) {
    var k := RedisKey(prefix, QueryKey(gid));
    if k in keys then (keys, keys[k] != RollbackMark) else (keys[k := RollbackMark], false)
  }

  /** One barrier script, of any branch, after another. */
  function RedisCallAll(keys: map<string, Mark>, prefix: string, calls: seq<Key>): map<string, Mark> {
    if calls == [] then keys
    else RedisJudge(RedisCallAll(keys, prefix, calls[..|calls| - 1]), prefix, calls[|calls| - 1]).0
  }

  lemma {:induction false} MarksAreKept(keys: map<string, Mark>, prefix: string, calls: seq<Key>, key: string)
    requires key in keys
    ensures
      var keys' := RedisCallAll(keys, prefix, calls);
      key in keys' && keys'[key] == keys[key]
  {
    if calls != [] {
      MarksAreKept(keys, prefix, calls[..|calls| - 1], key);
    }
  }

  /** The answer to a query is final: after "not committed" the forward branch never executes and
      every later query says the same; after "committed" every later query says committed. */
  lemma QueryAnswerIsFinal(keys: map<string, Mark>, prefix: string, gid: string, calls: seq<Key>)
    ensures
      var (keys1, committed) := QueryPrepared(keys, prefix, gid);
      var keys2 := RedisCallAll(keys1, prefix, calls);
      && QueryPrepared(keys2, prefix, gid) == (keys2, committed)
      && RedisJudge(keys2, prefix, QueryKey(gid)).1 == Duplicated
  {
    var keys1 := QueryPrepared(keys, prefix, gid).0;
    MarksAreKept(keys1, prefix, calls, RedisKey(prefix, QueryKey(gid)));
  }

  // ---------- is the answer true? ----------

  /** What happens on a Redis before somebody asks about one message: its local transaction runs as a
      script, which may refuse; queries come in; and other calls are put through the barrier. */
  datatype LocalEvent = Local(refuses: bool) | Query | Other(k: Key)

  /** This call sets the key that the query looks at, as its own key or as its origin's. */
  predicate SetsQueryKey(prefix: string, gid: string, k: Key) {
    || RedisKey(prefix, k) == RedisKey(prefix, QueryKey(gid))
    || RedisOrigin(prefix, k) == Some(RedisKey(prefix, QueryKey(gid)))
  }

  predicate Decisive(prefix: string, gid: string, e: LocalEvent) {
    e.Other? ==> SetsQueryKey(prefix, gid, e.k)
  }

  /** The first event that sets the key. */
  function First(prefix: string, gid: string, history: seq<LocalEvent>): (e: Option<LocalEvent>)
    ensures e.Some? ==> e.value in history && Decisive(prefix, gid, e.value)
  {
    if history == [] then None
    else
      var front := history[..|history| - 1];
      var before := First(prefix, gid, front);
      if before.Some? then assert before.value in front; before
      else if Decisive(prefix, gid, history[|history| - 1]) then Some(history[|history| - 1])
      else None
  }

  /** The keys, and how often the business part was executed. */
  function LocalRun(prefix: string, gid: string, history: seq<LocalEvent>): (map<string, Mark>, nat) {
    if history == [] then (map[], 0)
    else
      var (keys, ran) := LocalRun(prefix, gid, history[..|history| - 1]);
      match history[|history| - 1]
      case Query => (QueryPrepared(keys, prefix, gid).0, ran)
      case Local(refuses) =>
        var (keys', outcome) := RedisCall(keys, prefix, QueryKey(gid), refuses);
        (keys', ran + if outcome == Executed then 1 else 0)
      case Other(k) => (RedisJudge(keys, prefix, k).0, ran)
  }

  /** Whatever set the key first decides for good. */
  lemma {:induction false} FirstDecides(prefix: string, gid: string, history: seq<LocalEvent>)
    ensures
      var (keys, ran) := LocalRun(prefix, gid, history);
      var key, first := RedisKey(prefix, QueryKey(gid)), First(prefix, gid, history);
      && (key in keys <==> first.Some?)
      && (key in keys ==> (keys[key] == RollbackMark <==> first == Some(Query)))
      && ran == (if first == Some(Local(false)) then 1 else 0)
    decreases |history|
  {
    if history != [] {
      FirstDecides(prefix, gid, history[..|history| - 1]);
    }
  }

  /** The answer to a query is true, committed if and only if the business part was executed, exactly
      when the key was not first set by a local transaction that refused, nor by another call. */
  lemma QueryTrueExactly(prefix: string, gid: string, history: seq<LocalEvent>)
    ensures
      var (keys, ran) := LocalRun(prefix, gid, history);
      var first := First(prefix, gid, history);
      (QueryPrepared(keys, prefix, gid).1 <==> ran > 0) <==>
        first != Some(Local(true)) && !(first.Some? && first.value.Other?)
  {
    FirstDecides(prefix, gid, history);
  }

  /** Queries about this message are answered truly after every history in which only these other
      calls occur, and local transactions refuse only if they may. */
  ghost predicate QueriesAreTrue(prefix: string, gid: string, others: iset<Key>, mayRefuse: bool) {
    forall history: seq<LocalEvent> ::
      (forall e :: e in history ==> (e.Other? ==> e.k in others) && (e == Local(true) ==> mayRefuse)) ==>
        var (keys, ran) := LocalRun(prefix, gid, history);
        QueryPrepared(keys, prefix, gid).1 <==> ran > 0
  }

  /** They are, exactly when local transactions do not refuse and no other call sets the key. */
  lemma QueriesTrueExactly(prefix: string, gid: string, others: iset<Key>, mayRefuse: bool)
    ensures QueriesAreTrue(prefix, gid, others, mayRefuse) <==>
            !mayRefuse && forall k :: k in others ==> !SetsQueryKey(prefix, gid, k)
  {
    if mayRefuse {
      OneEventLies(prefix, gid, Local(true));
    } else if k :| k in others && SetsQueryKey(prefix, gid, k) {
      OneEventLies(prefix, gid, Other(k));
    } else {
      forall history: seq<LocalEvent> |
        forall e :: e in history ==> (e.Other? ==> e.k in others) && (e == Local(true) ==> mayRefuse)
        ensures var (keys, ran) := LocalRun(prefix, gid, history); QueryPrepared(keys, prefix, gid).1 <==> ran > 0
      {
        QueryTrueExactly(prefix, gid, history);
      }
    }
  }

  lemma OneEventLies(prefix: string, gid: string, e: LocalEvent)
    requires Decisive(prefix, gid, e) && (e == Local(true) || e.Other?)
    ensures
      var (keys, ran) := LocalRun(prefix, gid, [e]);
      QueryPrepared(keys, prefix, gid).1 && ran == 0
  {
    assert [e][..0] == [] && First(prefix, gid, []) == None;
    assert First(prefix, gid, [e]) == Some(e);
    QueryTrueExactly(prefix, gid, [e]);
    FirstDecides(prefix, gid, [e]);
  }

  /** A call of another transaction sets the key exactly when it works on the action of a branch that
      reads like this message's first one. */
  lemma OtherTransactionsSetIt(prefix: string, gid: string, k: Key)
    requires NoDash(k.barrierId)
    ensures SetsQueryKey(prefix, gid, k) <==>
            && k.barrierId == "01" && k.gid + "-" + k.branch == gid + "-" + "01"
            && (k.op == Action || k.op.OriginOp() == Some(Action))
  {
    RedisKeyExactly(prefix, k, QueryKey(gid));
    match OriginKey(k) {
      case None =>
      case Some(o) => RedisKeyExactly(prefix, o, QueryKey(gid));
    }
  }
}
