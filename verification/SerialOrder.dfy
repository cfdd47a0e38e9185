/** Transactions that look at `ready` before it is withdrawn and commit afterwards.  They belong
    before the withdrawal, and since nobody else may touch what they write, they can be put there:
    unless one transaction sees the flag change, the run leaves what some order of whole steps
    leaves. */
module SerialOrder {
  import opened Text
  import opened Store
  import opened SharedRows
  import opened Cells
  import opened Statements
  import opened Rights
  import opened Interleaving
  import opened Transactions
  import P = Protocol
  import Runs
  import SerialRuns

  // ---- Two transactions under locks of their own -------------------------------------------------------

  ghost predicate NoRow(registry: set<string>, x: Cell) {
    (x.ChunkAt? || x.StatusAt? || x.CatalogAt?) && x.model !in registry
  }

  /** What one writes, the other may not look at. */
  lemma WritesApart(owner: AssetOwner, registry: set<string>, a: P.Own, b: P.Own, log: seq<Stmt>, x: Cell)
    requires registry != {} && P.Held(a) !! P.Held(b) && AllPermitted(owner, registry, a, log)
    requires x in CellsOf(owner, log) && MayTouch(owner, registry, b, x)
    ensures NoRow(registry, x)
  {
    hide MayTouch, MayWrite, Writes, Touches, KeepsHome;
    var i :| 0 <= i < |log| && Writes(owner, log[i], x);
    assert Permitted(owner, registry, a, log[i]);
    RightsAreExclusive(owner, registry, a, b, x);
  }

  lemma NoRowSame(x: Cell, a: Db, b: Db)
    requires NoRow(a.profiles.Keys, x)
    ensures Same(x, a, b)
  {
  }

  lemma Unseen(owner: AssetOwner, db: Db, own: P.Own, log: seq<Stmt>, other: P.Own)
    requires AssetsHome(owner, db) && db.profiles.Keys != {} && P.Held(own) !! P.Held(other)
    requires AllPermitted(owner, db.profiles.Keys, own, log) && Replay(db, log).Some?
    ensures SameOn(db, Replay(db, log).value, Touchable(owner, db.profiles.Keys, other))
    ensures SameOn(Replay(db, log).value, db, Touchable(owner, db.profiles.Keys, other))
  {
    hide AssetsHome, MayTouch, Same, CellsOf, Replay, AllPermitted;
    var d := Replay(db, log).value;
    PermittedKeepHome(owner, db.profiles.Keys, own, log);
    ReplayFrame(owner, db, log);
    SameShapeItself(db);
    ShapeTransitive(d, db, db);
    forall x | MayTouch(owner, db.profiles.Keys, other, x) ensures Same(x, db, d) && Same(x, d, db) {
      if x in CellsOf(owner, log) {
        WritesApart(owner, db.profiles.Keys, own, other, log, x);
        NoRowSame(x, db, d);
        SameSymmetric(x, db, d);
      } else {
        SameSymmetric(x, d, db);
      }
    }
  }

  lemma ReadyKept(owner: AssetOwner, db: Db, log: seq<Stmt>)
    requires AssetsHome(owner, db) && AllKeepHome(owner, log) && LooksOnly(log) && Replay(db, log).Some?
    ensures Replay(db, log).value.ready == db.ready
  {
    hide AssetsHome, Replay, Writes;
    assert !InCells(owner, log, ReadyAt) by {
      forall i | 0 <= i < |log| ensures !Writes(owner, log[i], ReadyAt) {
        WritesAreTouched(owner, log[i], ReadyAt);
      }
    }
    ReplayFrame(owner, db, log);
    assert Same(ReadyAt, Replay(db, log).value, db);
  }

  /** No cell may be written by both but the flag. */
  lemma WritersExclude(owner: AssetOwner, registry: set<string>, a: P.Own, b: P.Own, x: Cell)
    requires registry != {} && P.Held(a) !! P.Held(b) && MayWrite(owner, registry, a, x) && MayWrite(owner, registry, b, x)
    ensures x == ReadyAt
  {
    assert forall l :: l in P.Held(a) ==> l !in P.Held(b);
    match x
    case SourceAt(k) => CoversAreExclusive(registry, a, b, k);
    case AssetAt(i) => CoversAreExclusive(registry, a, b, owner(i));
    case RefAt(r) => CoversAreExclusive(registry, a, b, r.key);
    case _ =>
  }

  /** And the flag is not written by one that only looks. */
  lemma WrittenByOne(owner: AssetOwner, registry: set<string>, a: P.Own, b: P.Own, logA: seq<Stmt>, logB: seq<Stmt>, x: Cell)
    requires registry != {} && P.Held(a) !! P.Held(b) && LooksOnly(logB)
    requires AllPermitted(owner, registry, a, logA) && AllPermitted(owner, registry, b, logB)
    ensures x in CellsOf(owner, logA) ==> x !in CellsOf(owner, logB)
  {
    hide MayTouch, MayWrite, KeepsHome, Touches, Writes;
    if x in CellsOf(owner, logA) && x in CellsOf(owner, logB) {
      var i :| 0 <= i < |logA| && Writes(owner, logA[i], x);
      var j :| 0 <= j < |logB| && Writes(owner, logB[j], x);
      assert Permitted(owner, registry, a, logA[i]) && Permitted(owner, registry, b, logB[j]);
      WritersExclude(owner, registry, a, b, x);
      WritesAreTouched(owner, logB[j], x);
    }
  }

  lemma SameAround(x: Cell, db: Db, e: Db, f: Db, g: Db, h: Db, first: Where, second: Where)
    requires SameShape(e, db) && SameShape(f, db) && SameShape(g, db) && SameShape(h, db)
    requires x !in first ==> Same(x, e, db) && Same(x, h, g)
    requires x !in second ==> Same(x, f, e) && Same(x, g, db)
    requires x in first ==> Same(x, e, h) && x !in second
    requires x in second ==> Same(x, f, g)
    ensures Same(x, h, f)
  {
  }

  /** So they may change places. */
  lemma Commute(owner: AssetOwner, db: Db, a: P.Own, logA: seq<Stmt>, b: P.Own, logB: seq<Stmt>)
    requires AssetsHome(owner, db) && db.profiles.Keys != {} && P.Held(a) !! P.Held(b) && LooksOnly(logB)
    requires AllPermitted(owner, db.profiles.Keys, a, logA) && AllPermitted(owner, db.profiles.Keys, b, logB)
    requires Replay(db, logA).Some? && Replay(Replay(db, logA).value, logB).Some?
    ensures Replay(db, logB).Some? && Replay(Replay(db, logB).value, logA) == Replay(Replay(db, logA).value, logB)
  {
    hide AssetsHome, Replay, Same, SameShape, CellsOf, AllPermitted, Touchable, LooksOnly, Within, SameOn, AllKeepHome;
    var registry := db.profiles.Keys;
    PermittedKeepHome(owner, registry, a, logA);
    PermittedKeepHome(owner, registry, b, logB);
    LogWithin(owner, registry, a, logA);
    LogWithin(owner, registry, b, logB);
    var e := Replay(db, logA).value;
    var f := Replay(e, logB).value;
    ReplayFrame(owner, db, logA);
    ReplayFrame(owner, e, logB);
    Unseen(owner, db, a, logA, b);
    ReplayLocal(owner, e, db, logB, Touchable(owner, registry, b));
    var g := Replay(db, logB).value;
    ReplayFrame(owner, db, logB);
    Unseen(owner, db, b, logB, a);
    ReplayLocal(owner, db, g, logA, Touchable(owner, registry, a));
    var h := Replay(g, logA).value;
    ReplayFrame(owner, g, logA);
    Shapes(db, e, f, g, h);
    forall x ensures Same(x, h, f) {
      WrittenByOne(owner, registry, a, b, logA, logB, x);
      if x in CellsOf(owner, logA) {
        SameOnAt(e, h, Touchable(owner, registry, a) + CellsOf(owner, logA), x);
      }
      if x in CellsOf(owner, logB) {
        SameOnAt(f, g, Touchable(owner, registry, b) + CellsOf(owner, logB), x);
      }
      SameAround(x, db, e, f, g, h, CellsOf(owner, logA), CellsOf(owner, logB));
    }
    SameEverywhere(h, f);
  }

  lemma Shapes(db: Db, e: Db, f: Db, g: Db, h: Db)
    requires SameShape(e, db) && SameShape(f, e) && SameShape(g, db) && SameShape(h, g)
    ensures SameShape(f, db) && SameShape(h, db) && SameShape(h, f)
  {
  }

  // ---- Overtaking -------------------------------------------------------------------------------------------

  /** A committed transaction with the locks it had. */
  datatype Done = Done(own: P.Own, txn: Txn)

  /** Transactions one after the other, each as its step: what it saw of `ready` was so. */
  ghost predicate Chain(owner: AssetOwner, registry: set<string>, db: Db, late: seq<Done>, end: Db)
    decreases |late|
  {
    if late == [] then db == end
    else
      var log := late[0].txn.log;
      && StandsFor(owner, late[0].txn.step, log) && SawOnly(log, db.ready) && AllPermitted(owner, registry, late[0].own, log)
      && Replay(db, log).Some? && Chain(owner, registry, Replay(db, log).value, late[1..], end)
  }

  predicate ApartFrom(late: seq<Done>, own: P.Own) {
    forall i :: 0 <= i < |late| ==> P.Held(late[i].own) !! P.Held(own)
  }

  lemma {:induction false} ChainOn(owner: AssetOwner, registry: set<string>, db: Db, late: seq<Done>, end: Db, d: Done)
    requires Replay(end, d.txn.log).Some?
    requires Chain(owner, registry, db, late, end) && Chain(owner, registry, end, [d], Replay(end, d.txn.log).value)
    ensures Chain(owner, registry, db, late + [d], Replay(end, d.txn.log).value)
    decreases |late|
  {
    hide StandsFor, AllPermitted, SawOnly, Replay;
    if late == [] {
      assert late + [d] == [d];
    } else {
      assert (late + [d])[1..] == late[1..] + [d];
      ChainOn(owner, registry, Replay(db, late[0].txn.log).value, late[1..], end, d);
    }
  }

  lemma OneLink(owner: AssetOwner, registry: set<string>, db: Db, d: Done)
    requires StandsFor(owner, d.txn.step, d.txn.log) && SawOnly(d.txn.log, db.ready) && AllPermitted(owner, registry, d.own, d.txn.log)
    requires Replay(db, d.txn.log).Some?
    ensures Chain(owner, registry, db, [d], Replay(db, d.txn.log).value)
  {
    hide StandsFor, AllPermitted, SawOnly, Replay;
    assert [d][1..] == [];
  }

  /** A transaction that all of them leave alone goes before them. */
  lemma {:induction false} Overtakes(owner: AssetOwner, registry: set<string>, db: Db, late: seq<Done>, end: Db, own: P.Own, log: seq<Stmt>)
    requires AssetsHome(owner, db) && db.profiles.Keys == registry != {} && Chain(owner, registry, db, late, end)
    requires ApartFrom(late, own) && AllPermitted(owner, registry, own, log) && LooksOnly(log) && Replay(end, log).Some?
    ensures Replay(db, log).Some? && Chain(owner, registry, Replay(db, log).value, late, Replay(end, log).value)
    decreases |late|
  {
    hide AssetsHome, Replay, AllPermitted, LooksOnly, SawOnly, StandsFor, CellsOf, SameShape;
    if late != [] {
      var u := late[0];
      PermittedKeepHome(owner, registry, u.own, u.txn.log);
      PermittedKeepHome(owner, registry, own, log);
      ReplayFrame(owner, db, u.txn.log);
      SameKeys(Replay(db, u.txn.log).value, db);
      assert ApartFrom(late[1..], own);
      Overtakes(owner, registry, Replay(db, u.txn.log).value, late[1..], end, own, log);
      Commute(owner, db, u.own, u.txn.log, own, log);
      ReadyKept(owner, db, log);
    }
  }

  function StepsOf(late: seq<Done>): (steps: seq<Runs.Step>)
    ensures |steps| == |late| && forall i :: 0 <= i < |late| ==> steps[i] == late[i].txn.step
  {
    seq(|late|, i requires 0 <= i < |late| => late[i].txn.step)
  }

  lemma {:induction false} RunBoth(db: Db, a: seq<Runs.Step>, b: seq<Runs.Step>)
    ensures Runs.Run(db, a + b) == Runs.Run(Runs.Run(db, a), b)
    decreases |b|
  {
    hide Runs.Next;
    if b == [] {
      assert a + b == a;
    } else {
      var n := |b| - 1;
      assert (a + b)[..|a + b| - 1] == a + b[..n];
      RunBoth(db, a, b[..n]);
    }
  }

  lemma RunOne(db: Db, step: Runs.Step)
    ensures Runs.Run(db, [step]) == Runs.Next(db, step)
  {
    hide Runs.Next;
    assert [step][..0] == [];
  }

  lemma IsItsStep(owner: AssetOwner, db: Db, step: Runs.Step, log: seq<Stmt>)
    requires AssetsHome(owner, db) && StandsFor(owner, step, log) && SawOnly(log, db.ready) && Replay(db, log).Some?
    ensures Replay(db, log).value == Runs.Next(db, step)
  {
    hide AssetsHome, Runs.Next, Replay, SawOnly;
    assert Stands(db, step, log, Replay(db, log).value);
  }

  lemma {:induction false} ChainIsRun(owner: AssetOwner, registry: set<string>, db: Db, late: seq<Done>, end: Db)
    requires AssetsHome(owner, db) && Chain(owner, registry, db, late, end)
    ensures Runs.Run(db, StepsOf(late)) == end
    decreases |late|
  {
    hide AssetsHome, Replay, AllPermitted, SawOnly, StandsFor, CellsOf, SameShape, Runs.Next;
    if late == [] {
      assert StepsOf(late) == [];
    } else {
      var u := late[0];
      IsItsStep(owner, db, u.txn.step, u.txn.log);
      PermittedKeepHome(owner, registry, u.own, u.txn.log);
      ReplayFrame(owner, db, u.txn.log);
      var e := Replay(db, u.txn.log).value;
      ChainIsRun(owner, registry, e, late[1..], end);
      assert StepsOf(late) == [u.txn.step] + StepsOf(late[1..]);
      RunBoth(db, [u.txn.step], StepsOf(late[1..]));
      RunOne(db, u.txn.step);
    }
  }

  // ---- Runs -------------------------------------------------------------------------------------------------

  /** A transaction sees of `ready` something else than it has seen before. */
  ghost predicate SeesChange(s: System, m: Move) {
    && m.Advance? && m.p < |s.procs| && s.procs[m.p].rest != [] && s.procs[m.p].rest[0].Do? && s.procs[m.p].rest[0].st.SeeReady?
    && !SawOnly(s.procs[m.p].log, s.procs[m.p].rest[0].st.ready)
  }

  ghost predicate Unsplit(owner: AssetOwner, s: System, moves: seq<Move>)
    requires CanRun(owner, s, moves)
  {
    moves == []
    || (Unsplit(owner, s, moves[..|moves| - 1]) && !SeesChange(After(owner, s, moves[..|moves| - 1]), moves[|moves| - 1]))
  }

  /** The order so far: steps that are settled, the database they leave, and — while `ready` is
      withdrawn — the withdrawal and what has been committed since. */
  datatype Order = Order(settled: seq<Runs.Step>, before: Db, late: seq<Done>)

  /** An open transaction has seen what is committed of `ready`, or what was before the
      withdrawal; then all that was committed since has left it alone. */
  ghost predicate Placed(ready: bool, late: seq<Done>, c: Proc) {
    && (LooksOnly(c.log) || SetsOnly(c.log))
    && (SawOnly(c.log, ready) || (late != [] && SawOnly(c.log, true) && LooksOnly(c.log) && ApartFrom(late, c.own)))
  }

  ghost predicate InOrder(owner: AssetOwner, start: Db, s: System, o: Order) {
    && o.before == Runs.Run(start, o.settled) && AssetsHome(owner, o.before) && SameShape(o.before, s.committed)
    && Chain(owner, s.committed.profiles.Keys, o.before, o.late, s.committed)
    && (o.late != [] ==> o.before.ready && !s.committed.ready)
    && multiset(o.settled + StepsOf(o.late)) == multiset(SerialRuns.Steps(s.history))
    && forall p :: 0 <= p < |s.procs| ==> Placed(s.committed.ready, o.late, s.procs[p])
  }

  // ---- Moves other than commits ------------------------------------------------------------------------------

  lemma NoLookFits(log: seq<Stmt>, ready: bool)
    requires SetsOnly(log)
    ensures SawOnly(log, ready)
  {
  }

  lemma StatementPlaced(owner: AssetOwner, committed: Db, c: Proc, late: seq<Done>)
    requires Consistent(owner, committed, c) && Placed(committed.ready, late, c)
    requires c.rest != [] && c.rest[0].Do? && Effect(Sees(committed, c), c.rest[0].st).Some?
    requires c.rest[0].st.SeeReady? ==> SawOnly(c.log, c.rest[0].st.ready)
    ensures Placed(committed.ready, late, Advanced(owner, committed, c))
  {
    hide Sees, AllPermitted, Permitted, StandsFor, AssetsHome, Replay, ApartFrom, CellsOf;
    var st := c.rest[0].st;
    if st.SeeReady? {
      SerialRuns.SeesReady(owner, committed, c);
      SerialRuns.LookReturns(Sees(committed, c), st);
    } else if st.PutReady? {
      NoLookFits(c.log + [st], committed.ready);
    }
  }

  lemma LockPlaced(owner: AssetOwner, committed: Db, c: Proc, late: seq<Done>)
    requires Consistent(owner, committed, c) && Placed(committed.ready, late, c)
    requires c.rest != [] && !c.rest[0].Do? && !c.rest[0].Commit?
    ensures Placed(committed.ready, late, Advanced(owner, committed, c))
  {
    hide Sees, AllPermitted, Permitted, StandsFor, AssetsHome, Replay, ApartFrom, CellsOf;
    NoLookFits(c.log, committed.ready) by {
      assert c.rest[0].UnlockSession? ==> c.log == [];
    }
  }

  lemma QuietMove(owner: AssetOwner, start: Db, s: System, m: Move, o: Order)
    requires Inv(owner, s) && CanMove(s, m) && !SeesChange(s, m) && InOrder(owner, start, s, o)
    requires m.Advance? ==> !s.procs[m.p].rest[0].Commit?
    ensures InOrder(owner, start, Moved(owner, s, m), o)
  {
    hide Sees, Consistent, AssetsHome, Exclusive, Effect, Placed, Chain, SameShape, SawOnly, Advanced, Runs.Run;
    var t, c := Moved(owner, s, m), s.procs[m.p];
    assert Consistent(owner, s.committed, c);
    forall q | 0 <= q < |t.procs| ensures Placed(t.committed.ready, o.late, t.procs[q]) {
      if q != m.p {
        assert t.procs[q] == s.procs[q];
      } else if m.Fail? {
        FreshPlaced(s.committed.ready, o.late, t.procs[q]);
      } else if c.rest[0].Do? {
        StatementPlaced(owner, s.committed, c, o.late);
      } else {
        LockPlaced(owner, s.committed, c, o.late);
      }
    }
    SameHistory(owner, s, m);
  }

  lemma SameHistory(owner: AssetOwner, s: System, m: Move)
    requires CanMove(s, m) && (m.Advance? ==> !s.procs[m.p].rest[0].Commit?)
    ensures Moved(owner, s, m).committed == s.committed && Moved(owner, s, m).history == s.history
  {
    hide Advanced, Sees;
  }

  lemma FreshPlaced(ready: bool, late: seq<Done>, c: Proc)
    requires c.log == []
    ensures Placed(ready, late, c)
  {
  }

  // ---- Commits ---------------------------------------------------------------------------------------------

  /** What the commit of `p` does, as far as the order is concerned. */
  ghost predicate Commits(owner: AssetOwner, s: System, p: nat, t: System) {
    && p < |s.procs| && s.procs[p].rest != [] && s.procs[p].rest[0].Commit? && |t.procs| == |s.procs|
    && Replay(s.committed, s.procs[p].log) == Some(t.committed) && SameShape(t.committed, s.committed)
    && t.history == s.history + [Txn(s.procs[p].rest[0].step, s.procs[p].log)]
    && StandsFor(owner, s.procs[p].rest[0].step, s.procs[p].log)
    && AllPermitted(owner, s.committed.profiles.Keys, s.procs[p].own, s.procs[p].log)
    && AssetsHome(owner, s.committed) && AssetsHome(owner, t.committed)
    && t.procs[p].log == [] && (forall q :: 0 <= q < |s.procs| && q != p ==> t.procs[q] == s.procs[q])
    && forall q :: 0 <= q < |s.procs| && q != p ==> P.Held(s.procs[p].own) !! P.Held(s.procs[q].own)
  }

  lemma CommitIs(owner: AssetOwner, s: System, p: nat)
    requires Inv(owner, s) && Enabled(s, p) && s.procs[p].rest[0].Commit?
    ensures Commits(owner, s, p, Moved(owner, s, Advance(p)))
  {
    hide Sees, AssetsHome, Exclusive, AllPermitted, Permitted, Replay, SameShape, StandsFor, CellsOf;
    assert Consistent(owner, s.committed, s.procs[p]);
    SeesShape(owner, s.committed, s.procs[p]);
    forall q | 0 <= q < |s.procs| && q != p ensures P.Held(s.procs[p].own) !! P.Held(s.procs[q].own) {
      HoldApart(s, p, q);
    }
    var t, c := Moved(owner, s, Advance(p)), s.procs[p];
    assert Replay(s.committed, c.log) == Some(t.committed) && t.history == s.history + [Txn(c.rest[0].step, c.log)];
    assert StandsFor(owner, c.rest[0].step, c.log) && AllPermitted(owner, s.committed.profiles.Keys, c.own, c.log);
    assert SameShape(t.committed, s.committed) && AssetsHome(owner, t.committed);
  }

  lemma StepsAppended(h: seq<Txn>, txn: Txn)
    ensures SerialRuns.Steps(h + [txn]) == SerialRuns.Steps(h) + [txn.step]
  {
  }

  /** Where `ready` has not been withdrawn, or is set again, the step comes last. */
  lemma Settles(owner: AssetOwner, start: Db, s: System, p: nat, t: System, o: Order) returns (r: Order)
    requires Commits(owner, s, p, t) && InOrder(owner, start, s, o) && SawOnly(s.procs[p].log, s.committed.ready)
    requires forall q :: 0 <= q < |s.procs| && q != p ==> SawOnly(s.procs[q].log, t.committed.ready)
    ensures InOrder(owner, start, t, r)
  {
    hide AssetsHome, AllPermitted, Replay, SameShape, StandsFor, Chain, SawOnly, Runs.Run, Runs.Next, LooksOnly, SetsOnly;
    var registry, step, log := s.committed.profiles.Keys, s.procs[p].rest[0].step, s.procs[p].log;
    r := Order(o.settled + StepsOf(o.late) + [step], t.committed, []);
    ChainIsRun(owner, registry, o.before, o.late, s.committed);
    RunBoth(start, o.settled, StepsOf(o.late));
    IsItsStep(owner, s.committed, step, log);
    RunBoth(start, o.settled + StepsOf(o.late), [step]);
    RunOne(s.committed, step);
    NoChain(owner, registry, t.committed);
    StepsAppended(s.history, Txn(step, log));
    assert r.settled + StepsOf([]) == r.settled;
    forall q | 0 <= q < |t.procs| ensures Placed(t.committed.ready, [], t.procs[q]) {
      if q == p {
        FreshPlaced(t.committed.ready, [], t.procs[q]);
      } else {
        assert Placed(s.committed.ready, o.late, s.procs[q]);
      }
    }
    SameKeys(t.committed, s.committed);
    SameShapeItself(t.committed);
  }

  lemma NoChain(owner: AssetOwner, registry: set<string>, db: Db)
    ensures Chain(owner, registry, db, [], db)
  {
  }

  /** The withdrawal, and what follows while `ready` is not set. */
  lemma Lasts(owner: AssetOwner, start: Db, s: System, p: nat, t: System, o: Order) returns (r: Order)
    requires Commits(owner, s, p, t) && InOrder(owner, start, s, o) && SawOnly(s.procs[p].log, s.committed.ready)
    requires !t.committed.ready && (s.committed.ready || o.late != [])
    ensures InOrder(owner, start, t, r)
  {
    hide AssetsHome, AllPermitted, Replay, SameShape, StandsFor, Chain, SawOnly, Runs.Run, Runs.Next;
    var registry, step, log := s.committed.profiles.Keys, s.procs[p].rest[0].step, s.procs[p].log;
    var d := Done(s.procs[p].own, Txn(step, log));
    r := o.(late := o.late + [d]);
    OneLink(owner, registry, s.committed, d);
    ChainOn(owner, registry, o.before, o.late, s.committed, d);
    StepsAppended(s.history, d.txn);
    assert o.settled + StepsOf(r.late) == o.settled + StepsOf(o.late) + [step];
    SameKeys(t.committed, s.committed);
    ShapeTransitive(t.committed, s.committed, o.before) by {
      SameShapeSymmetric(o.before, s.committed);
    }
    if s.committed.ready {
      BeforeIsNow(owner, registry, o, s.committed);
    }
    forall q | 0 <= q < |t.procs| ensures Placed(false, r.late, t.procs[q]) {
      if q == p {
        FreshPlaced(false, r.late, t.procs[q]);
      } else {
        StillPlaced(s.committed.ready, o.late, d, s.procs[q]);
      }
    }
  }

  lemma SameShapeSymmetric(a: Db, b: Db)
    requires SameShape(a, b)
    ensures SameShape(b, a)
  {
  }

  lemma BeforeIsNow(owner: AssetOwner, registry: set<string>, o: Order, db: Db)
    requires Chain(owner, registry, o.before, o.late, db) && o.late == []
    ensures o.before == db
  {
  }

  lemma StillPlaced(ready: bool, late: seq<Done>, d: Done, c: Proc)
    requires Placed(ready, late, c) && P.Held(d.own) !! P.Held(c.own) && (ready ==> late == []) && (!ready ==> late != [])
    ensures Placed(false, late + [d], c)
  {
    if SetsOnly(c.log) {
      NoLookFits(c.log, false);
    }
  }

  /** A transaction that looked before the withdrawal is put before it. */
  lemma Overtaken(owner: AssetOwner, start: Db, s: System, p: nat, t: System, o: Order) returns (r: Order)
    requires Commits(owner, s, p, t) && InOrder(owner, start, s, o) && s.committed.profiles.Keys != {}
    requires o.late != [] && SawOnly(s.procs[p].log, true) && LooksOnly(s.procs[p].log) && ApartFrom(o.late, s.procs[p].own)
    ensures InOrder(owner, start, t, r)
  {
    hide AssetsHome, AllPermitted, Replay, SameShape, StandsFor, Chain, SawOnly, Runs.Run, Runs.Next, LooksOnly, SetsOnly, ApartFrom, CellsOf;
    var registry, own, step, log := s.committed.profiles.Keys, s.procs[p].own, s.procs[p].rest[0].step, s.procs[p].log;
    SameKeys(o.before, s.committed);
    Overtakes(owner, registry, o.before, o.late, s.committed, own, log);
    var b := Replay(o.before, log).value;
    PermittedKeepHome(owner, registry, own, log);
    ReplayFrame(owner, o.before, log);
    ReadyKept(owner, o.before, log);
    ReadyKept(owner, s.committed, log);
    IsItsStep(owner, o.before, step, log);
    RunBoth(start, o.settled, [step]);
    RunOne(o.before, step);
    r := Order(o.settled + [step], b, o.late);
    StepsAppended(s.history, Txn(step, log));
    assert multiset(r.settled + StepsOf(o.late)) == multiset(o.settled + StepsOf(o.late)) + multiset{step};
    SameKeys(t.committed, s.committed);
    ShapesMeet(b, o.before, s.committed, t.committed);
    forall q | 0 <= q < |t.procs| ensures Placed(t.committed.ready, o.late, t.procs[q]) {
      if q == p {
        FreshPlaced(t.committed.ready, o.late, t.procs[q]);
      }
    }
  }

  lemma ShapesMeet(b: Db, a: Db, c: Db, d: Db)
    requires SameShape(b, a) && SameShape(a, c) && SameShape(d, c)
    ensures SameShape(b, d)
  {
  }

  /** When `ready` is set, nobody has looked at it. */
  lemma NobodyLooked(owner: AssetOwner, s: System, p: nat, q: nat)
    requires Inv(owner, s) && Enabled(s, p) && s.procs[p].rest[0].Commit? && q < |s.procs| && q != p
    requires !s.committed.ready && Sees(s.committed, s.procs[p]).ready
    ensures SetsOnly(s.procs[q].log)
  {
    hide Sees, Follows, AssetsHome, Permitted, SameShape, CellsOf;
    var c, d := s.procs[p], s.procs[q];
    assert Consistent(owner, s.committed, c) && Consistent(owner, s.committed, d);
    var i := SerialRuns.ReadyIsSet(s.committed, c.log);
    forall j | 0 <= j < |d.log| ensures !d.log[j].SeeReady? {
      if d.log[j].SeeReady? {
        HoldApart(s, p, q);
        SerialRuns.SetterExcludes(owner, s.committed.profiles.Keys, c.own, d.own, c.log[i], d.log[j]);
      }
    }
  }

  lemma CommitKeepsOrder(owner: AssetOwner, start: Db, s: System, p: nat, o: Order) returns (r: Order)
    requires Inv(owner, s) && Enabled(s, p) && s.procs[p].rest[0].Commit? && InOrder(owner, start, s, o)
    ensures InOrder(owner, start, Moved(owner, s, Advance(p)), r)
  {
    hide Sees, AssetsHome, Exclusive, Commits, SawOnly, Chain, SameShape, LooksOnly, SetsOnly, ApartFrom, Advanced, Consistent, Runs.Run;
    var t := Moved(owner, s, Advance(p));
    CommitIs(owner, s, p);
    assert Placed(s.committed.ready, o.late, s.procs[p]);
    if !SawOnly(s.procs[p].log, s.committed.ready) {
      r := Overtaken(owner, start, s, p, t, o);
    } else if !t.committed.ready && (s.committed.ready || o.late != []) {
      r := Lasts(owner, start, s, p, t, o);
    } else {
      forall q | 0 <= q < |s.procs| && q != p ensures SawOnly(s.procs[q].log, t.committed.ready) {
        assert Placed(s.committed.ready, o.late, s.procs[q]);
        if t.committed.ready && !s.committed.ready {
          NobodyLooked(owner, s, p, q);
          NoLookFits(s.procs[q].log, true);
        }
      }
      r := Settles(owner, start, s, p, t, o);
    }
  }

  lemma {:induction false} RunKeepsOrder(owner: AssetOwner, s: System, moves: seq<Move>) returns (o: Order)
    requires Inv(owner, s) && s.history == [] && (forall p :: 0 <= p < |s.procs| ==> s.procs[p].log == [])
    requires CanRun(owner, s, moves) && Unsplit(owner, s, moves)
    ensures InOrder(owner, s.committed, After(owner, s, moves), o)
  {
    hide Inv, CanMove, Moved, SeesChange, InOrder;
    if moves == [] {
      o := Order([], s.committed, []);
      NothingOrdered(owner, s);
    } else {
      var n := |moves| - 1;
      var t, m := After(owner, s, moves[..n]), moves[n];
      var before := RunKeepsOrder(owner, s, moves[..n]);
      RunKeepsInv(owner, s, moves[..n]);
      o := MoveKeepsOrder(owner, s.committed, t, m, before);
    }
  }

  lemma NothingOrdered(owner: AssetOwner, s: System)
    requires Inv(owner, s) && s.history == [] && forall p :: 0 <= p < |s.procs| ==> s.procs[p].log == []
    ensures InOrder(owner, s.committed, s, Order([], s.committed, []))
  {
    hide AssetsHome, Consistent, Exclusive, Placed;
    SameShapeItself(s.committed);
    assert [] + StepsOf([]) == SerialRuns.Steps([]);
    forall p | 0 <= p < |s.procs| ensures Placed(s.committed.ready, [], s.procs[p]) {
      FreshPlaced(s.committed.ready, [], s.procs[p]);
    }
  }

  lemma MoveKeepsOrder(owner: AssetOwner, start: Db, s: System, m: Move, o: Order) returns (r: Order)
    requires Inv(owner, s) && CanMove(s, m) && !SeesChange(s, m) && InOrder(owner, start, s, o)
    ensures InOrder(owner, start, Moved(owner, s, m), r)
  {
    hide Inv, Moved, SeesChange, InOrder;
    if m.Advance? && s.procs[m.p].rest[0].Commit? {
      r := CommitKeepsOrder(owner, start, s, m.p, o);
    } else {
      QuietMove(owner, start, s, m, o);
      r := o;
    }
  }

  /** Unless some transaction sees `ready` change, an interleaved run leaves what its committed
      steps leave in some order: chunk tables, catalogs with their counts, statuses, revisions,
      sources, assets and references. */
  lemma UnsplitIsSerial(owner: AssetOwner, s: System, moves: seq<Move>) returns (order: seq<Runs.Step>)
    requires Inv(owner, s) && s.history == [] && (forall p :: 0 <= p < |s.procs| ==> s.procs[p].log == [])
    requires CanRun(owner, s, moves) && Unsplit(owner, s, moves)
    ensures multiset(order) == multiset(SerialRuns.Steps(After(owner, s, moves).history))
    ensures After(owner, s, moves).committed == Runs.Run(s.committed, order)
  {
    hide Inv, CanRun, After, Unsplit, Chain, Placed, AssetsHome, SameShape, Runs.Run;
    var t := After(owner, s, moves);
    var o := RunKeepsOrder(owner, s, moves);
    ChainIsRun(owner, t.committed.profiles.Keys, o.before, o.late, t.committed);
    RunBoth(s.committed, o.settled, StepsOf(o.late));
    order := o.settled + StepsOf(o.late);
  }
}
