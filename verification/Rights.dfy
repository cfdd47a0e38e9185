/** What the locks of a process let it look at and change, that no two processes may change and
    look at the same cell, and that a list of statements does the same wherever the cells it
    looks at hold the same. */
module Rights {
  import opened Text
  import opened Store
  import opened SharedRows
  import opened Cells
  import opened Statements
  import P = Protocol
  import Runs

  // ---- Which cells a lock gives a right to -----------------------------------------------------

  predicate HasProfile(own: P.Own, m: string) {
    P.ProfileLock(m) in P.Held(own)
  }

  /** A catalog row is stable under the lock of its profile and under that of its document; the
      rows of a profile and of a document are so under the one lock each. */
  ghost predicate MayTouch(owner: AssetOwner, registry: set<string>, own: P.Own, x: Cell) {
    match x
    case ChunkAt(m, _) => m in registry ==> HasProfile(own, m)
    case StatusAt(m) => m in registry ==> HasProfile(own, m)
    case RevisionAt(s) => HasProfile(own, s.model)
    case CatalogAt(m, k) => m in registry ==> HasProfile(own, m) || P.Covers(registry, own, k)
    case SourceAt(k) => P.Covers(registry, own, k)
    case AssetAt(i) => P.Covers(registry, own, owner(i))
    case RefAt(r) => P.Covers(registry, own, r.key)
    case ReadyAt => false
  }

  /** To change a catalog row takes both locks.  `ready` is under no lock. */
  ghost predicate MayWrite(owner: AssetOwner, registry: set<string>, own: P.Own, x: Cell) {
    match x
    case CatalogAt(m, k) => HasProfile(own, m) && P.Covers(registry, own, k)
    case ReadyAt => true
    case ChunkAt(m, _) => HasProfile(own, m)
    case StatusAt(m) => HasProfile(own, m)
    case _ => MayTouch(owner, registry, own, x)
  }

  predicate AllProfiles(registry: set<string>, own: P.Own) {
    forall m :: m in registry ==> HasProfile(own, m)
  }

  /** What the writers' discipline asks of a statement.  The flag is set under all profile locks
      only; it is withdrawn under none. */
  ghost predicate Permitted(owner: AssetOwner, registry: set<string>, own: P.Own, st: Stmt) {
    && KeepsHome(owner, st)
    && (forall x :: Touches(owner, st, x) ==> MayTouch(owner, registry, own, x))
    && (forall x :: Writes(owner, st, x) ==> MayWrite(owner, registry, own, x))
    && (st.SeeReady? ==> exists m :: m in registry && HasProfile(own, m))
    && (st == PutReady(true) ==> AllProfiles(registry, own))
  }

  lemma CoversAreExclusive(registry: set<string>, a: P.Own, b: P.Own, k: DocKey)
    requires registry != {} && P.Held(a) !! P.Held(b) && P.Covers(registry, a, k)
    ensures !P.Covers(registry, b, k)
  {
    assert forall l :: l in P.Held(a) ==> l !in P.Held(b);
    var some :| some in registry;
    var m :| m in registry && P.ProfileLock(m) in P.Held(a);
    assert P.ProfileLock(m) !in P.Held(b);
  }

  /** What one process may write, no other may even look at — unless it is no row at all. */
  lemma RightsAreExclusive(owner: AssetOwner, registry: set<string>, a: P.Own, b: P.Own, x: Cell)
    requires registry != {} && P.Held(a) !! P.Held(b) && MayWrite(owner, registry, a, x) && MayTouch(owner, registry, b, x)
    ensures (x.ChunkAt? || x.StatusAt? || x.CatalogAt?) && x.model !in registry
  {
    assert forall l :: l in P.Held(a) ==> l !in P.Held(b);
    match x
    case CatalogAt(m, k) =>
      CoversAreExclusive(registry, a, b, k);
    case SourceAt(k) => CoversAreExclusive(registry, a, b, k);
    case AssetAt(i) => CoversAreExclusive(registry, a, b, owner(i));
    case RefAt(r) => CoversAreExclusive(registry, a, b, r.key);
    case _ =>
  }

  lemma MoreLocks(owner: AssetOwner, registry: set<string>, own: P.Own, more: P.Own, st: Stmt)
    requires own.session <= more.session && own.tx <= more.tx && Permitted(owner, registry, own, st)
    ensures Permitted(owner, registry, more, st)
  {
    hide Touches, Writes, KeepsHome;
    assert P.Held(own) <= P.Held(more);
    assert forall m :: HasProfile(own, m) ==> HasProfile(more, m);
    assert forall k :: P.Covers(registry, own, k) ==> P.Covers(registry, more, k);
    assert forall x :: MayTouch(owner, registry, own, x) ==> MayTouch(owner, registry, more, x);
  }

  // ---- Statements one after the other --------------------------------------------------------

  /** A statement executed again elsewhere: what it saw of `ready` is not looked at again. */
  function Redone(db: Db, st: Stmt): Option<Db> {
    if st.SeeReady? then Some(db) else Effect(db, st)
  }

  function Replay(db: Db, log: seq<Stmt>): Option<Db> {
    if log == [] then Some(db)
    else
      match Replay(db, log[..|log| - 1])
      case None => None
      case Some(d) => Redone(d, log[|log| - 1])
  }

  ghost predicate InCells(owner: AssetOwner, log: seq<Stmt>, x: Cell) {
    exists i :: 0 <= i < |log| && Writes(owner, log[i], x)
  }

  ghost function CellsOf(owner: AssetOwner, log: seq<Stmt>): Where {
    iset x | InCells(owner, log, x)
  }

  ghost predicate AllKeepHome(owner: AssetOwner, log: seq<Stmt>) {
    forall i :: 0 <= i < |log| ==> KeepsHome(owner, log[i])
  }

  lemma RedoneFrame(owner: AssetOwner, db: Db, st: Stmt)
    requires AssetsHome(owner, db) && KeepsHome(owner, st) && Redone(db, st).Some?
    ensures SameShape(Redone(db, st).value, db) && AssetsHome(owner, Redone(db, st).value)
    ensures forall x :: !Writes(owner, st, x) ==> Same(x, Redone(db, st).value, db)
  {
    hide Effect, AssetsHome, Writes, Same;
    if st.SeeReady? {
      forall x ensures Same(x, db, db) {
        SameItself(x, db);
      }
    } else {
      EffectKeepsShape(owner, db, st);
      forall x | !Writes(owner, st, x) ensures Same(x, Effect(db, st).value, db) {
        EffectFrame(owner, db, st, x);
      }
    }
  }

  lemma SameItself(x: Cell, db: Db)
    ensures Same(x, db, db)
  {
  }

  lemma OneMoreWritten(owner: AssetOwner, log: seq<Stmt>, st: Stmt)
    ensures forall x :: x in CellsOf(owner, log + [st]) <==> x in CellsOf(owner, log) || Writes(owner, st, x)
  {
    hide Writes;
    var more := log + [st];
    forall x | x in CellsOf(owner, log) || Writes(owner, st, x) ensures x in CellsOf(owner, more) {
      if x in CellsOf(owner, log) {
        var i :| 0 <= i < |log| && Writes(owner, log[i], x);
        assert more[i] == log[i];
      } else {
        assert more[|log|] == st;
      }
    }
    forall x | x in CellsOf(owner, more) ensures x in CellsOf(owner, log) || Writes(owner, st, x) {
      var i :| 0 <= i < |more| && Writes(owner, more[i], x);
      assert i < |log| ==> more[i] == log[i];
    }
  }

  /** Some statements change only what they write. */
  lemma {:induction false} ReplayFrame(owner: AssetOwner, db: Db, log: seq<Stmt>)
    requires AssetsHome(owner, db) && AllKeepHome(owner, log) && Replay(db, log).Some?
    ensures SameShape(Replay(db, log).value, db) && AssetsHome(owner, Replay(db, log).value)
    ensures forall x :: x !in CellsOf(owner, log) ==> Same(x, Replay(db, log).value, db)
  {
    hide Redone, AssetsHome, CellsOf, Same;
    if log == [] {
      forall x ensures Same(x, db, db) {
        SameItself(x, db);
      }
    } else {
      var n := |log| - 1;
      ReplayFrame(owner, db, log[..n]);
      var d := Replay(db, log[..n]).value;
      RedoneFrame(owner, d, log[n]);
      assert log == log[..n] + [log[n]];
      OneMoreWritten(owner, log[..n], log[n]);
      forall x | x !in CellsOf(owner, log) ensures Same(x, Replay(db, log).value, db) {
        SameTransitive(x, Replay(db, log).value, d, db);
      }
    }
  }

  // ---- Elsewhere they do the same --------------------------------------------------------------

  /** All the statements touch lies within. */
  ghost predicate Within(owner: AssetOwner, log: seq<Stmt>, where: Where) {
    ReadyAt !in where && forall i, x :: 0 <= i < |log| && Touches(owner, log[i], x) ==> x in where
  }

  ghost predicate SameOn(a: Db, b: Db, where: Where) {
    SameShape(a, b) && forall x :: x in where ==> Same(x, a, b)
  }

  /** Databases that hold the same where the statements look are changed alike. */
  lemma {:induction false} ReplayLocal(owner: AssetOwner, a: Db, b: Db, log: seq<Stmt>, where: Where)
    requires AssetsHome(owner, a) && AssetsHome(owner, b) && AllKeepHome(owner, log) && Within(owner, log, where) && SameOn(a, b, where)
    requires Replay(a, log).Some?
    ensures Replay(b, log).Some? && SameOn(Replay(a, log).value, Replay(b, log).value, where + CellsOf(owner, log))
  {
    hide Redone, AssetsHome, Same, SameOn, Touches, Writes, CellsOf;
    if log == [] {
      NothingWritten(owner, where);
    } else {
      var n := |log| - 1;
      ReplayLocal(owner, a, b, log[..n], where);
      ReplayFrame(owner, a, log[..n]);
      ReplayFrame(owner, b, log[..n]);
      assert log == log[..n] + [log[n]];
      RedoneLocal(owner, Replay(a, log[..n]).value, Replay(b, log[..n]).value, log[..n], log[n], where);
    }
  }

  lemma NothingWritten(owner: AssetOwner, where: Where)
    ensures where + CellsOf(owner, []) == where
  {
  }

  lemma RedoneLocal(owner: AssetOwner, a: Db, b: Db, log: seq<Stmt>, st: Stmt, where: Where)
    requires AssetsHome(owner, a) && AssetsHome(owner, b) && KeepsHome(owner, st) && SameOn(a, b, where + CellsOf(owner, log))
    requires (forall x :: Touches(owner, st, x) ==> x in where) && Redone(a, st).Some?
    ensures Redone(b, st).Some? && SameOn(Redone(a, st).value, Redone(b, st).value, where + CellsOf(owner, log + [st]))
  {
    hide Effect, AssetsHome, Same, Touches, Writes, CellsOf, SameShape;
    if !st.SeeReady? {
      EffectLocal(owner, a, b, st);
    }
    RedoneFrame(owner, a, st);
    RedoneFrame(owner, b, st);
    var c, d := Redone(a, st).value, Redone(b, st).value;
    OneMoreWritten(owner, log, st);
    ShapeAlong(c, a, b, d);
    forall x | x in where + CellsOf(owner, log + [st]) ensures Same(x, c, d) {
      if Writes(owner, st, x) {
        LooksWriteNothing(owner, st, x);
      } else {
        assert Same(x, a, b);
        SameSymmetric(x, d, b);
        SameAlong(x, c, a, b, d);
      }
    }
  }

  lemma LooksWriteNothing(owner: AssetOwner, st: Stmt, x: Cell)
    ensures st.SeeReady? ==> !Writes(owner, st, x)
  {
  }

  lemma ShapeAlong(c: Db, a: Db, b: Db, d: Db)
    requires SameShape(c, a) && SameShape(a, b) && SameShape(d, b)
    ensures SameShape(c, d) && SameShape(b, d) && SameShape(c, b)
  {
  }

  lemma SameAlong(x: Cell, c: Db, a: Db, b: Db, d: Db)
    requires SameShape(c, a) && SameShape(a, b) && SameShape(b, d)
    requires Same(x, c, a) && Same(x, a, b) && Same(x, b, d)
    ensures Same(x, c, d)
  {
  }
}
