/** Writers as processes: each runs a program of connection, lock and row steps, and any
    number of them interleave step by step.  Locks are owned and re-entrant, connections come
    from a bounded pool, and rows follow READ COMMITTED: a transaction sees what is committed
    and its own changes. */
module Protocol {
  import opened Text
  import opened Store

  // ---- Locks and their order -------------------------------------------------------------

  datatype Lock = ProfileLock(name: string) | DocLock(key: DocKey)

  predicate KeyLess(a: DocKey, b: DocKey) {
    || TextLess(a.workspace, b.workspace)
    || (a.workspace == b.workspace && TextLess(a.chunking, b.chunking))
    || (a.workspace == b.workspace && a.chunking == b.chunking && TextLess(a.doc, b.doc))
  }

  /** Profile locks come before document locks; both are taken in sorted order. */
  predicate Less(a: Lock, b: Lock) {
    match (a, b)
    case (ProfileLock(x), ProfileLock(y)) => TextLess(x, y)
    case (ProfileLock(_), DocLock(_)) => true
    case (DocLock(_), ProfileLock(_)) => false
    case (DocLock(x), DocLock(y)) => KeyLess(x, y)
  }

  lemma LessIrreflexive(a: Lock)
    ensures !Less(a, a)
  {
    match a
    case ProfileLock(x) => TextLessIrreflexive(x);
    case DocLock(k) =>
      TextLessIrreflexive(k.workspace);
      TextLessIrreflexive(k.chunking);
      TextLessIrreflexive(k.doc);
  }

  lemma LessTransitive(a: Lock, b: Lock, c: Lock)
    requires Less(a, b) && Less(b, c)
    ensures Less(a, c)
  {
    match (a, b, c) {
      case (ProfileLock(x), ProfileLock(y), ProfileLock(z)) => TextLessTransitive(x, y, z);
      case (DocLock(x), DocLock(y), DocLock(z)) => KeyLessTransitive(x, y, z);
      case _ =>
    }
  }

  lemma KeyLessTransitive(x: DocKey, y: DocKey, z: DocKey)
    requires KeyLess(x, y) && KeyLess(y, z)
    ensures KeyLess(x, z)
  {
    if TextLess(x.workspace, y.workspace) && TextLess(y.workspace, z.workspace) {
      TextLessTransitive(x.workspace, y.workspace, z.workspace);
    } else if x.workspace == y.workspace == z.workspace {
      if TextLess(x.chunking, y.chunking) && TextLess(y.chunking, z.chunking) {
        TextLessTransitive(x.chunking, y.chunking, z.chunking);
      } else if x.chunking == y.chunking == z.chunking {
        TextLessTransitive(x.doc, y.doc, z.doc);
      }
    }
  }

  /** Of any two locks one comes first, so any set of them can be taken in order. */
  lemma LessTotal(a: Lock, b: Lock)
    ensures a == b || Less(a, b) || Less(b, a)
  {
    match (a, b) {
      case (ProfileLock(x), ProfileLock(y)) => TextLessTotal(x, y);
      case (DocLock(x), DocLock(y)) =>
        TextLessTotal(x.workspace, y.workspace);
        TextLessTotal(x.chunking, y.chunking);
        TextLessTotal(x.doc, y.doc);
      case _ =>
    }
  }

  // ---- Rows and statements -----------------------------------------------------------------

  /** The shared rows of a document: its source, its publications, its assets, and the
      references its publications make to them. */
  datatype Row =
    | SourceRow(key: DocKey) | PubRow(key: DocKey, model: string)
    | AssetRow(key: DocKey, asset: string) | RefRow(key: DocKey, model: string, asset: string)

  datatype Statement =
    | InsertSource(key: DocKey)
    | InsertPub(key: DocKey, model: string)
    | DeletePub(key: DocKey, model: string)
    | DeleteRefs(key: DocKey, model: string)
    | InsertAsset(key: DocKey, asset: string)
    | CheckAsset(key: DocKey, asset: string)
    | InsertRef(key: DocKey, model: string, asset: string)
    | PruneAssets(key: DocKey)
    | PruneSource(key: DocKey)

  predicate Referenced(view: set<Row>, k: DocKey, a: string) {
    exists r :: r in view && r.RefRow? && r.key == k && r.asset == a
  }

  predicate Published(view: set<Row>, k: DocKey) {
    exists r :: r in view && r.PubRow? && r.key == k
  }

  /** Rows a statement adds: an insert that meets its row does nothing. */
  function Added(view: set<Row>, st: Statement): set<Row> {
    match st
    case InsertSource(k) => {SourceRow(k)} - view
    case InsertPub(k, m) => {PubRow(k, m)} - view
    case InsertAsset(k, a) => {AssetRow(k, a)} - view
    case InsertRef(k, m, a) => {RefRow(k, m, a)} - view
    case _ => {}
  }

  /** Rows a statement removes, foreign-key cascades included. */
  function Removed(view: set<Row>, st: Statement): set<Row> {
    match st
    case DeletePub(k, m) => set r | r in view && r.key == k && (r.PubRow? || r.RefRow?) && r.model == m
    case DeleteRefs(k, m) => set r | r in view && r.RefRow? && r.key == k && r.model == m
    case PruneAssets(k) => set r | r in view && r.AssetRow? && r.key == k && !Referenced(view, k, r.asset)
    case PruneSource(k) =>
      if Published(view, k) then {} else set r | r in view && r.key == k && !r.PubRow?
    case _ => {}
  }

  // ---- Processes -----------------------------------------------------------------------------

  datatype Action =
    | TakeConn | GiveConn
    | LockSession(lock: Lock) | UnlockSession(lock: Lock)
    | LockTx(lock: Lock) | EndTx
    | Exec(st: Statement)

  /** What a process owns, and the rows it has made sure of in its open transaction. */
  datatype Own = Own(conn: bool, session: set<Lock>, tx: set<Lock>, open: bool, facts: set<Row>)

  const NOTHING := Own(false, {}, {}, false, {})

  function Held(own: Own): set<Lock> {
    own.session + own.tx
  }

  function Facts(facts: set<Row>, st: Statement): set<Row> {
    match st
    case InsertSource(k) => facts + {SourceRow(k)}
    case InsertPub(k, m) => facts + {PubRow(k, m)}
    case InsertAsset(k, a) => facts + {AssetRow(k, a)}
    case CheckAsset(k, a) => facts + {AssetRow(k, a)}
    case InsertRef(_, _, _) => facts
    case DeleteRefs(_, _) => facts
    case DeletePub(k, m) => facts - {PubRow(k, m)}
    case PruneAssets(k) => set r | r in facts && !(r.AssetRow? && r.key == k)
    case PruneSource(k) => set r | r in facts && r.key != k
  }

  function Apply(own: Own, a: Action): Own {
    match a
    case TakeConn => own.(conn := true)
    case GiveConn => own.(conn := false)
    case LockSession(l) => own.(session := own.session + {l})
    case UnlockSession(l) => own.(session := own.session - {l})
    case LockTx(l) => own.(tx := own.tx + {l}, open := true)
    case EndTx => own.(tx := {}, open := false, facts := {})
    case Exec(st) => own.(open := true, facts := Facts(own.facts, st))
  }

  /** A process may touch a document's rows when it holds the document's lock beside its
      profile's, or every profile's lock. */
  predicate Covers(registry: set<string>, own: Own, k: DocKey) {
    || (DocLock(k) in own.tx && exists m :: m in registry && ProfileLock(m) in Held(own))
    || (forall m :: m in registry ==> ProfileLock(m) in own.session)
  }

  predicate Enables(facts: set<Row>, st: Statement) {
    match st
    case InsertPub(k, _) => SourceRow(k) in facts
    case InsertAsset(k, _) => SourceRow(k) in facts
    case InsertRef(k, m, a) => PubRow(k, m) in facts && AssetRow(k, a) in facts
    case _ => true
  }

  /** The writers' discipline: one connection first, then locks in ascending order unless
      already owned, rows only under cover, everything given back in the end. */
  predicate Allowed(registry: set<string>, own: Own, a: Action) {
    match a
    case TakeConn => own == NOTHING
    case GiveConn => own.conn && !own.open && Held(own) == {}
    case LockSession(l) => own.conn && !own.open && own.tx == {} && Ascends(own, l) && l.ProfileLock?
    case LockTx(l) =>
      && own.conn && Ascends(own, l)
      && (l.DocLock? ==> exists m :: m in registry && ProfileLock(m) in Held(own))
    case UnlockSession(l) => own.conn && !own.open && own.tx == {}
    case EndTx => own.conn
    case Exec(st) => own.conn && Covers(registry, own, st.key) && Enables(own.facts, st)
  }

  predicate Ascends(own: Own, l: Lock) {
    l in Held(own) || forall h :: h in Held(own) ==> Less(h, l)
  }

  predicate Disciplined(registry: set<string>, own: Own, rest: seq<Action>)
    decreases |rest|
  {
    if rest == [] then own == NOTHING
    else Allowed(registry, own, rest[0]) && Disciplined(registry, Apply(own, rest[0]), rest[1..])
  }

  /** A process: what it owns, what it still has to do, and its uncommitted rows. */
  datatype Process = Process(own: Own, rest: seq<Action>, ins: set<Row>, del: set<Row>)

  datatype System = System(pool: nat, registry: set<string>, committed: set<Row>, procs: seq<Process>)

  function View(s: System, p: nat): set<Row>
    requires p < |s.procs|
  {
    s.committed - s.procs[p].del + s.procs[p].ins
  }

  function Conns(procs: seq<Process>, n: nat): nat
    requires n <= |procs|
  {
    if n == 0 then 0 else Conns(procs, n - 1) + (if procs[n - 1].own.conn then 1 else 0)
  }

  predicate Unfinished(s: System, p: nat) {
    p < |s.procs| && s.procs[p].rest != []
  }

  predicate HeldByOther(s: System, p: nat, l: Lock) {
    exists q :: 0 <= q < |s.procs| && q != p && l in Held(s.procs[q].own)
  }

  /** Only two kinds of steps can wait: for a connection, and for a lock another owns. */
  predicate Enabled(s: System, p: nat) {
    && Unfinished(s, p)
    && match s.procs[p].rest[0]
       case TakeConn => Conns(s.procs, |s.procs|) < s.pool
       case LockSession(l) => l in Held(s.procs[p].own) || !HeldByOther(s, p, l)
       case LockTx(l) => l in Held(s.procs[p].own) || !HeldByOther(s, p, l)
       case _ => true
  }

  function Failed(): Process {
    Process(NOTHING, [], {}, {})
  }

  function Advanced(s: System, p: nat): Process
    requires Unfinished(s, p)
  {
    var c := s.procs[p];
    var a := c.rest[0];
    var next := Process(Apply(c.own, a), c.rest[1..], c.ins, c.del);
    match a
    case EndTx => next.(ins := {}, del := {})
    case Exec(st) =>
      var view := View(s, p);
      if st.CheckAsset? && AssetRow(st.key, st.asset) !in view then Failed()
      else next.(ins := c.ins - Removed(view, st) + Added(view, st), del := c.del + Removed(view, st))
    case _ => next
  }

  /** One step of one process: its next action, or a failure that gives everything back. */
  datatype Move = Advance(p: nat) | Fail(p: nat)

  predicate CanMove(s: System, m: Move) {
    match m
    case Advance(p) => Enabled(s, p)
    case Fail(p) => Unfinished(s, p)
  }

  function Moved(s: System, m: Move): System
    requires CanMove(s, m)
  {
    match m
    case Fail(p) => s.(procs := s.procs[p := Failed()])
    case Advance(p) =>
      s.(procs := s.procs[p := Advanced(s, p)],
         committed := if s.procs[p].rest[0] == EndTx then View(s, p) else s.committed)
  }

  predicate CanRun(s: System, moves: seq<Move>)
    decreases |moves|
  {
    moves == [] || (CanMove(s, moves[0]) && CanRun(Moved(s, moves[0]), moves[1..]))
  }

  function After(s: System, moves: seq<Move>): System
    requires CanRun(s, moves)
    decreases |moves|
  {
    if moves == [] then s else After(Moved(s, moves[0]), moves[1..])
  }

  lemma {:induction false} RunsJoin(s: System, moves: seq<Move>, later: seq<Move>)
    requires CanRun(s, moves) && CanRun(After(s, moves), later)
    ensures CanRun(s, moves + later) && After(s, moves + later) == After(After(s, moves), later)
    decreases |moves|
  {
    hide Moved, CanMove;
    if moves == [] {
      assert moves + later == later;
    } else {
      RunsJoin(Moved(s, moves[0]), moves[1..], later);
      assert (moves + later)[1..] == moves[1..] + later;
    }
  }

  // ---- Ownership over every run -----------------------------------------------------------------

  ghost predicate Exclusive(s: System) {
    forall p, q :: 0 <= p < q < |s.procs| ==> Held(s.procs[p].own) !! Held(s.procs[q].own)
  }

  ghost predicate Orderly(s: System) {
    && (forall p :: 0 <= p < |s.procs| ==> Disciplined(s.registry, s.procs[p].own, s.procs[p].rest))
    && Exclusive(s)
    && Conns(s.procs, |s.procs|) <= s.pool
  }

  lemma {:induction false} ConnsAfter(procs: seq<Process>, p: nat, c: Process, n: nat)
    requires p < |procs| && n <= |procs|
    ensures Conns(procs[p := c], n) == Conns(procs, n)
              + (if p < n then (if c.own.conn then 1 else 0) - (if procs[p].own.conn then 1 else 0) else 0)
  {
    if n > 0 {
      ConnsAfter(procs, p, c, n - 1);
    }
  }

  lemma AdvancedOwn(s: System, p: nat)
    requires Unfinished(s, p)
    ensures Advanced(s, p) == Failed()
         || (Advanced(s, p).own == Apply(s.procs[p].own, s.procs[p].rest[0]) && Advanced(s, p).rest == s.procs[p].rest[1..])
  {
  }

  lemma MoveKeepsExclusive(s: System, m: Move)
    requires Exclusive(s) && CanMove(s, m)
    ensures Exclusive(Moved(s, m))
  {
    hide View, Removed, Added, Facts;
    var t := Moved(s, m);
    var c := t.procs[m.p];
    if m.Advance? {
      AdvancedOwn(s, m.p);
    }
    forall q | 0 <= q < |s.procs| && q != m.p ensures Held(c.own) !! Held(s.procs[q].own) {
      forall l | l in Held(c.own) ensures l !in Held(s.procs[q].own) {
      }
    }
  }

  lemma MoveKeepsOrderly(s: System, m: Move)
    requires Orderly(s) && CanMove(s, m)
    ensures Orderly(Moved(s, m))
  {
    hide View, Removed, Added, Facts, Held;
    MoveKeepsExclusive(s, m);
    ConnsAfter(s.procs, m.p, Moved(s, m).procs[m.p], |s.procs|);
    if m.Advance? {
      AdvancedOwn(s, m.p);
    }
  }

  lemma {:induction false} RunKeepsOrderly(s: System, moves: seq<Move>)
    requires Orderly(s) && CanRun(s, moves)
    ensures Orderly(After(s, moves))
    decreases |moves|
  {
    if moves != [] {
      MoveKeepsOrderly(s, moves[0]);
      RunKeepsOrderly(Moved(s, moves[0]), moves[1..]);
    }
  }
}
