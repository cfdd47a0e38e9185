/** The interleaved writers as a system: processes with programs of locks, statements and
    commits, and what every reachable state of theirs keeps.  A transaction sees what is committed
    at that moment and its own changes; locks are owned to the end of the transaction or of the
    session.  Whatever the interleaving, each committed state is the last one with the committing
    transaction's statements executed on it in one go. */
module Interleaving {
  import opened Text
  import opened Store
  import opened SharedRows
  import opened Cells
  import opened Statements
  import opened Rights
  import P = Protocol
  import Runs

  // ---- Processes -------------------------------------------------------------------------------

  /** A commit names the step of the writers' theory that its transaction stands for. */
  datatype Act =
    | LockSession(lock: P.Lock) | UnlockSession(lock: P.Lock) | LockTx(lock: P.Lock)
    | Do(st: Stmt)
    | Commit(step: Runs.Step)

  /** A process: its locks, what it still has to do, its database as it last saw it, the cells
      of its own changes, and the statements of its open transaction. */
  datatype Proc = Proc(own: P.Own, rest: seq<Act>, mine: Db, written: Where, log: seq<Stmt>)

  datatype Txn = Txn(step: Runs.Step, log: seq<Stmt>)

  datatype System = System(committed: Db, procs: seq<Proc>, history: seq<Txn>)

  const NO_LOCKS := P.Own(true, {}, {}, false, {})

  /** READ COMMITTED: what is committed now, with one's own changes. */
  ghost function Sees(committed: Db, c: Proc): Db {
    if SameShape(committed, c.mine) then Over(committed, c.mine, c.written) else committed
  }

  ghost predicate HeldElsewhere(s: System, p: nat, l: P.Lock) {
    exists q :: 0 <= q < |s.procs| && q != p && l in P.Held(s.procs[q].own)
  }

  /** A read that returns something else than the program says is no step of this program. */
  ghost predicate Enabled(s: System, p: nat) {
    && p < |s.procs| && s.procs[p].rest != []
    && match s.procs[p].rest[0]
       case LockSession(l) => l in P.Held(s.procs[p].own) || !HeldElsewhere(s, p, l)
       case LockTx(l) => l in P.Held(s.procs[p].own) || !HeldElsewhere(s, p, l)
       case Do(st) => Effect(Sees(s.committed, s.procs[p]), st).Some?
       case _ => true
  }

  function Locked(own: P.Own, a: Act): P.Own {
    match a
    case LockSession(l) => own.(session := own.session + {l})
    case UnlockSession(l) => own.(session := own.session - {l})
    case LockTx(l) => own.(tx := own.tx + {l})
    case Do(_) => own
    case Commit(_) => own.(tx := {})
  }

  ghost function Advanced(owner: AssetOwner, committed: Db, c: Proc): Proc
    requires c.rest != [] && (c.rest[0].Do? ==> Effect(Sees(committed, c), c.rest[0].st).Some?)
  {
    var a := c.rest[0];
    match a
    case Do(st) =>
      Proc(c.own, c.rest[1..], Effect(Sees(committed, c), st).value, c.written + (iset x | Writes(owner, st, x)), c.log + [st])
    case Commit(_) => Proc(Locked(c.own, a), c.rest[1..], Sees(committed, c), iset{}, [])
    case _ => c.(own := Locked(c.own, a), rest := c.rest[1..])
  }

  /** A step of one process, or its failure at any point: the transaction is rolled back and all
      locks are given back. */
  datatype Move = Advance(p: nat) | Fail(p: nat)

  ghost predicate CanMove(s: System, m: Move) {
    match m
    case Advance(p) => Enabled(s, p)
    case Fail(p) => p < |s.procs|
  }

  ghost function Moved(owner: AssetOwner, s: System, m: Move): System
    requires CanMove(s, m)
  {
    match m
    case Fail(p) => s.(procs := s.procs[p := Proc(NO_LOCKS, [], s.committed, iset{}, [])])
    case Advance(p) =>
      var c := s.procs[p];
      var t := s.(procs := s.procs[p := Advanced(owner, s.committed, c)]);
      if c.rest[0].Commit? then t.(committed := Sees(s.committed, c), history := s.history + [Txn(c.rest[0].step, c.log)])
      else t
  }

  ghost predicate CanRun(owner: AssetOwner, s: System, moves: seq<Move>)
    decreases |moves|, 0
  {
    moves == [] || (CanRun(owner, s, moves[..|moves| - 1]) && CanMove(After(owner, s, moves[..|moves| - 1]), moves[|moves| - 1]))
  }

  ghost function After(owner: AssetOwner, s: System, moves: seq<Move>): System
    requires CanRun(owner, s, moves)
    decreases |moves|, 1
  {
    if moves == [] then s else Moved(owner, After(owner, s, moves[..|moves| - 1]), moves[|moves| - 1])
  }

  // ---- What a program keeps ---------------------------------------------------------------------

  /** Chunk tables, catalogs with their counts, statuses, revisions and the flag are equal. */
  predicate SameLists(a: Db, b: Db) {
    a.profiles == b.profiles && a.revisions == b.revisions && a.ready == b.ready && a.workspaces == b.workspaces
  }

  predicate SawOnly(log: seq<Stmt>, ready: bool) {
    forall i :: 0 <= i < |log| && log[i].SeeReady? ==> log[i].ready == ready
  }

  /** The statements amount to the step: to all of it if what they saw of `ready` is so, and
      otherwise up to the pruning of shared rows. */
  ghost predicate Stands(db: Db, step: Runs.Step, log: seq<Stmt>, d: Db) {
    SameLists(d, Runs.Next(db, step)) && (SawOnly(log, db.ready) ==> d == Runs.Next(db, step))
  }

  ghost predicate StandsFor(owner: AssetOwner, step: Runs.Step, log: seq<Stmt>) {
    forall db :: AssetsHome(owner, db) && Replay(db, log).Some? ==> Stands(db, step, log, Replay(db, log).value)
  }

  predicate LooksOnly(stmts: seq<Stmt>) {
    forall i :: 0 <= i < |stmts| ==> !stmts[i].PutReady?
  }

  predicate SetsOnly(stmts: seq<Stmt>) {
    forall i :: 0 <= i < |stmts| ==> !stmts[i].SeeReady?
  }

  /** A program is disciplined: every statement is permitted under the locks held at that point,
      session locks are not given back inside a transaction, no lock is taken after a look at the
      flag, a transaction that looks at the flag does not set it, and what is committed stands for
      the step that the commit names. `done` are the statements of the transaction so far. */
  ghost predicate Follows(owner: AssetOwner, registry: set<string>, own: P.Own, done: seq<Stmt>, rest: seq<Act>)
    decreases |rest|
  {
    rest == []
    || (&& (rest[0].Do? ==> Permitted(owner, registry, own, rest[0].st))
        && (rest[0].UnlockSession? ==> done == [])
        && (rest[0].LockSession? || rest[0].LockTx? ==> SetsOnly(done))
        && (rest[0].Do? && rest[0].st.SeeReady? ==> LooksOnly(done))
        && (rest[0].Do? && rest[0].st.PutReady? ==> SetsOnly(done))
        && (rest[0].Commit? ==> StandsFor(owner, rest[0].step, done))
        && Follows(owner, registry, Locked(own, rest[0]),
                   if rest[0].Do? then done + [rest[0].st] else if rest[0].Commit? then [] else done, rest[1..]))
  }

  ghost predicate AllPermitted(owner: AssetOwner, registry: set<string>, own: P.Own, log: seq<Stmt>) {
    forall i :: 0 <= i < |log| ==> Permitted(owner, registry, own, log[i])
  }

  /** One process: its transaction so far, executed on what is committed now, leaves exactly what
      it sees. */
  ghost predicate Consistent(owner: AssetOwner, committed: Db, c: Proc) {
    && SameShape(committed, c.mine) && AssetsHome(owner, c.mine)
    && Follows(owner, committed.profiles.Keys, c.own, c.log, c.rest)
    && AllPermitted(owner, committed.profiles.Keys, c.own, c.log)
    && c.written == CellsOf(owner, c.log)
    && Replay(committed, c.log) == Some(Sees(committed, c))
  }

  ghost predicate Exclusive(s: System) {
    forall p, q :: 0 <= p < q < |s.procs| ==> P.Held(s.procs[p].own) !! P.Held(s.procs[q].own)
  }

  ghost predicate Inv(owner: AssetOwner, s: System) {
    && s.committed.profiles.Keys != {} && AssetsHome(owner, s.committed) && Exclusive(s)
    && forall p :: 0 <= p < |s.procs| ==> Consistent(owner, s.committed, s.procs[p])
  }

  // ---- Locks --------------------------------------------------------------------------------------

  lemma MoveKeepsExclusive(owner: AssetOwner, s: System, m: Move)
    requires Exclusive(s) && CanMove(s, m)
    ensures Exclusive(Moved(owner, s, m))
  {
    hide Effect, Sees, CellsOf;
    var t := Moved(owner, s, m);
    forall q | 0 <= q < |s.procs| && q != m.p ensures P.Held(t.procs[m.p].own) !! P.Held(t.procs[q].own) {
      assert P.Held(s.procs[m.p].own) !! P.Held(s.procs[q].own);
      forall l | l in P.Held(t.procs[m.p].own) ensures l !in P.Held(s.procs[q].own) {
        if l !in P.Held(s.procs[m.p].own) {
          assert !HeldElsewhere(s, m.p, l);
        }
      }
    }
    assert forall p, q :: 0 <= p < q < |t.procs| ==> P.Held(t.procs[p].own) !! P.Held(t.procs[q].own);
  }

  // ---- A process's own step -----------------------------------------------------------------------

  lemma LocksKeepConsistent(owner: AssetOwner, committed: Db, c: Proc)
    requires Consistent(owner, committed, c) && c.rest != [] && !c.rest[0].Do? && !c.rest[0].Commit?
    ensures Consistent(owner, committed, Advanced(owner, committed, c))
  {
    hide Permitted, Over, Replay, CellsOf, AssetsHome;
    var next := Locked(c.own, c.rest[0]);
    forall i | 0 <= i < |c.log| ensures Permitted(owner, committed.profiles.Keys, next, c.log[i]) {
      assert !c.rest[0].UnlockSession?;
      MoreLocks(owner, committed.profiles.Keys, c.own, next, c.log[i]);
    }
  }

  lemma SeesShape(owner: AssetOwner, committed: Db, c: Proc)
    requires Consistent(owner, committed, c) && AssetsHome(owner, committed)
    ensures SameShape(Sees(committed, c), committed) && AssetsHome(owner, Sees(committed, c))
  {
    hide Over, AssetsHome, Permitted, CellsOf;
    OverShape(committed, c.mine, c.written);
    assert AllKeepHome(owner, c.log) by {
      PermittedKeepHome(owner, committed.profiles.Keys, c.own, c.log);
    }
    ReplayFrame(owner, committed, c.log);
  }

  lemma PermittedKeepHome(owner: AssetOwner, registry: set<string>, own: P.Own, log: seq<Stmt>)
    requires AllPermitted(owner, registry, own, log)
    ensures AllKeepHome(owner, log)
  {
    hide MayTouch, MayWrite, Touches, Writes;
    assert forall i :: 0 <= i < |log| ==> Permitted(owner, registry, own, log[i]);
  }

  /** After a statement the process sees what the statement made of what it saw before. */
  lemma DoSees(owner: AssetOwner, committed: Db, c: Proc, st: Stmt)
    requires Consistent(owner, committed, c) && AssetsHome(owner, committed)
    requires KeepsHome(owner, st) && Effect(Sees(committed, c), st).Some?
    ensures var d := Effect(Sees(committed, c), st).value;
            && SameShape(committed, d) && AssetsHome(owner, d)
            && Over(committed, d, CellsOf(owner, c.log + [st])) == d
  {
    hide Over, AssetsHome, Permitted, Effect, CellsOf, Same, Follows, AllPermitted, Replay, SameShape;
    var v := Sees(committed, c);
    var d := Effect(v, st).value;
    var w := CellsOf(owner, c.log + [st]);
    SeesShape(owner, committed, c);
    EffectKeepsShape(owner, v, st);
    ShapeTransitive(d, v, committed);
    OneMoreWritten(owner, c.log, st);
    forall x ensures Same(x, d, if x in w then d else committed) {
      if x in w {
        SameItself(x, d);
      } else {
        EffectFrame(owner, v, st, x);
        OverSame(committed, c.mine, c.written, x);
        SameTransitive(x, d, v, committed);
      }
    }
    OverIs(d, committed, d, w);
  }

  lemma ShapeTransitive(a: Db, b: Db, c: Db)
    requires SameShape(a, b) && SameShape(b, c)
    ensures SameShape(a, c) && SameShape(c, a) && SameShape(b, a)
  {
  }

  lemma FollowsOn(owner: AssetOwner, registry: set<string>, own: P.Own, done: seq<Stmt>, rest: seq<Act>)
    requires Follows(owner, registry, own, done, rest) && rest != [] && rest[0].Do? && AllPermitted(owner, registry, own, done)
    ensures Follows(owner, registry, own, done + [rest[0].st], rest[1..])
    ensures Permitted(owner, registry, own, rest[0].st) && AllPermitted(owner, registry, own, done + [rest[0].st])
  {
    hide Permitted, StandsFor;
  }

  lemma DoKeepsConsistent(owner: AssetOwner, committed: Db, c: Proc)
    requires Consistent(owner, committed, c) && AssetsHome(owner, committed)
    requires c.rest != [] && c.rest[0].Do? && Effect(Sees(committed, c), c.rest[0].st).Some?
    ensures Consistent(owner, committed, Advanced(owner, committed, c))
  {
    hide Over, AssetsHome, Permitted, Effect, Same, SameShape, Follows, AllPermitted, CellsOf, StandsFor, Redone;
    var st, t := c.rest[0].st, Advanced(owner, committed, c);
    FollowsOn(owner, committed.profiles.Keys, c.own, c.log, c.rest);
    PermittedKeepsHome(owner, committed.profiles.Keys, c.own, st);
    DoSees(owner, committed, c, st);
    OneMoreWritten(owner, c.log, st);
    assert t.written == CellsOf(owner, t.log);
    assert t.log[..|t.log| - 1] == c.log;
    RedoneNow(Sees(committed, c), st);
  }

  lemma PermittedKeepsHome(owner: AssetOwner, registry: set<string>, own: P.Own, st: Stmt)
    requires Permitted(owner, registry, own, st)
    ensures KeepsHome(owner, st)
  {
  }

  lemma RedoneNow(db: Db, st: Stmt)
    requires Effect(db, st).Some?
    ensures Redone(db, st) == Effect(db, st)
  {
  }

  lemma FreshConsistent(owner: AssetOwner, committed: Db, mine: Db, own: P.Own, rest: seq<Act>)
    requires AssetsHome(owner, mine) && SameShape(committed, mine) && Follows(owner, committed.profiles.Keys, own, [], rest)
    ensures Consistent(owner, committed, Proc(own, rest, mine, iset{}, []))
  {
    hide AssetsHome;
    var c := Proc(own, rest, mine, iset{}, []);
    assert CellsOf(owner, []) == iset{};
    ShapeTransitive(committed, mine, mine) by {
      assert SameShape(mine, mine);
    }
    forall x ensures Same(x, committed, if x in c.written then mine else committed) {
      SameItself(x, committed);
    }
    assert SameShape(committed, committed);
    OverIs(committed, committed, mine, iset{});
  }

  lemma CommitKeepsOwn(owner: AssetOwner, committed: Db, c: Proc)
    requires Consistent(owner, committed, c) && AssetsHome(owner, committed) && c.rest != [] && c.rest[0].Commit?
    ensures Consistent(owner, Sees(committed, c), Advanced(owner, committed, c))
  {
    hide Over, AssetsHome, Permitted, Replay;
    SeesShape(owner, committed, c);
    var v := Sees(committed, c);
    assert v.profiles.Keys == committed.profiles.Keys;
    FreshConsistent(owner, v, v, Locked(c.own, c.rest[0]), c.rest[1..]);
  }

  // ---- The others' steps ------------------------------------------------------------------------

  ghost function Touchable(owner: AssetOwner, registry: set<string>, own: P.Own): Where {
    iset x | MayTouch(owner, registry, own, x)
  }

  /** A commit changes nothing another process has a right to look at. */
  lemma CommitUnseen(owner: AssetOwner, committed: Db, c: Proc, other: P.Own)
    requires Consistent(owner, committed, c) && AssetsHome(owner, committed) && committed.profiles.Keys != {}
    requires P.Held(c.own) !! P.Held(other)
    ensures SameOn(committed, Sees(committed, c), Touchable(owner, committed.profiles.Keys, other))
  {
    hide Over, AssetsHome, MayTouch, MayWrite, Same, SameShape, Touches, Writes, Replay, Follows;
    var registry := committed.profiles.Keys;
    var v := Sees(committed, c);
    SeesShape(owner, committed, c);
    ShapeTransitive(v, committed, committed) by {
      SameShapeItself(committed);
    }
    forall x | MayTouch(owner, registry, other, x) ensures Same(x, committed, v) {
      OverSame(committed, c.mine, c.written, x);
      if x in c.written {
        assert InCells(owner, c.log, x);
        var i :| 0 <= i < |c.log| && Writes(owner, c.log[i], x);
        assert Permitted(owner, registry, c.own, c.log[i]);
        assert MayWrite(owner, registry, c.own, x);
        RightsAreExclusive(owner, registry, c.own, other, x);
        SameUnregistered(x, committed, v);
      } else {
        SameSymmetric(x, v, committed);
      }
    }
  }

  lemma SameShapeItself(db: Db)
    ensures SameShape(db, db)
  {
  }

  lemma SameUnregistered(x: Cell, a: Db, b: Db)
    requires (x.ChunkAt? || x.StatusAt? || x.CatalogAt?) && x.model !in a.profiles
    ensures Same(x, a, b)
  {
  }

  lemma LogWithin(owner: AssetOwner, registry: set<string>, own: P.Own, log: seq<Stmt>)
    requires AllPermitted(owner, registry, own, log)
    ensures Within(owner, log, Touchable(owner, registry, own))
  {
    hide Touches, Writes, MayWrite, KeepsHome, HasProfile;
    assert ReadyAt !in Touchable(owner, registry, own);
    forall i, x | 0 <= i < |log| && Touches(owner, log[i], x) ensures x in Touchable(owner, registry, own) {
      assert Permitted(owner, registry, own, log[i]);
    }
  }

  /** So another's commit leaves an open transaction consistent. */
  lemma CommitKeepsOthers(owner: AssetOwner, committed: Db, c: Proc, other: Proc)
    requires Consistent(owner, committed, c) && Consistent(owner, committed, other) && AssetsHome(owner, committed)
    requires committed.profiles.Keys != {} && P.Held(c.own) !! P.Held(other.own)
    ensures Consistent(owner, Sees(committed, c), other)
  {
    hide Over, AssetsHome, Same, SameShape, Permitted, Follows, CellsOf, Touchable, Within, SameOn, Replay, MayTouch;
    var v, registry := Sees(committed, c), committed.profiles.Keys;
    var where := Touchable(owner, registry, other.own);
    SeesShape(owner, committed, c);
    CommitUnseen(owner, committed, c, other.own);
    LogWithin(owner, registry, other.own, other.log);
    PermittedKeepHome(owner, registry, other.own, other.log);
    ReplayLocal(owner, committed, v, other.log, where);
    ReplayFrame(owner, v, other.log);
    ShapeTransitive(v, committed, other.mine);
    SameKeys(v, committed);
    var a, b := Sees(committed, other), Replay(v, other.log).value;
    forall x ensures Same(x, b, if x in other.written then other.mine else v) {
      if x in other.written {
        OverSame(committed, other.mine, other.written, x);
        SameOnAt(a, b, where + CellsOf(owner, other.log), x);
        SeesShape(owner, committed, other);
        SameSymmetric(x, a, b);
        ShapesAround(b, v, committed, a, other.mine);
        SameTransitive(x, b, a, other.mine);
      }
    }
    OverIs(b, v, other.mine, other.written);
  }

  lemma SameKeys(a: Db, b: Db)
    requires SameShape(a, b)
    ensures a.profiles.Keys == b.profiles.Keys
  {
  }

  lemma SameOnAt(a: Db, b: Db, where: Where, x: Cell)
    requires SameOn(a, b, where) && x in where
    ensures Same(x, a, b)
  {
  }

  lemma ShapesAround(b: Db, v: Db, committed: Db, a: Db, mine: Db)
    requires SameShape(b, v) && SameShape(v, committed) && SameShape(a, committed) && SameShape(committed, mine)
    ensures SameShape(b, a) && SameShape(a, mine)
  {
  }

  // ---- Every reachable state ---------------------------------------------------------------------

  lemma CommitKeepsInv(owner: AssetOwner, s: System, p: nat)
    requires Inv(owner, s) && Enabled(s, p) && s.procs[p].rest[0].Commit?
    ensures Inv(owner, Moved(owner, s, Advance(p)))
  {
    hide Consistent, Sees, AssetsHome, Exclusive, Advanced;
    var t, c := Moved(owner, s, Advance(p)), s.procs[p];
    MoveKeepsExclusive(owner, s, Advance(p));
    SeesShape(owner, s.committed, c);
    SameKeys(t.committed, s.committed);
    forall q | 0 <= q < |t.procs| ensures Consistent(owner, t.committed, t.procs[q]) {
      if q == p {
        CommitKeepsOwn(owner, s.committed, c);
      } else {
        HoldApart(s, p, q);
        CommitKeepsOthers(owner, s.committed, c, s.procs[q]);
      }
    }
  }

  lemma HoldApart(s: System, p: nat, q: nat)
    requires Exclusive(s) && p < |s.procs| && q < |s.procs| && p != q
    ensures P.Held(s.procs[p].own) !! P.Held(s.procs[q].own)
  {
  }

  lemma MoveKeepsInv(owner: AssetOwner, s: System, m: Move)
    requires Inv(owner, s) && CanMove(s, m)
    ensures Inv(owner, Moved(owner, s, m))
  {
    hide Consistent, Sees, AssetsHome, Exclusive, Advanced, Effect;
    if m.Advance? && s.procs[m.p].rest[0].Commit? {
      CommitKeepsInv(owner, s, m.p);
    } else {
      var t, c := Moved(owner, s, m), s.procs[m.p];
      MoveKeepsExclusive(owner, s, m);
      forall q | 0 <= q < |t.procs| ensures Consistent(owner, t.committed, t.procs[q]) {
        if q != m.p {
          assert t.procs[q] == s.procs[q];
        } else if m.Fail? {
          FreshConsistent(owner, s.committed, s.committed, NO_LOCKS, []) by {
            SameShapeItself(s.committed);
          }
        } else if c.rest[0].Do? {
          DoKeepsConsistent(owner, s.committed, c);
        } else {
          LocksKeepConsistent(owner, s.committed, c);
        }
      }
    }
  }

  lemma {:induction false} RunKeepsInv(owner: AssetOwner, s: System, moves: seq<Move>)
    requires Inv(owner, s) && CanRun(owner, s, moves)
    ensures Inv(owner, After(owner, s, moves))
  {
    hide Inv, CanMove, Moved;
    if moves != [] {
      var n := |moves| - 1;
      RunKeepsInv(owner, s, moves[..n]);
      MoveKeepsInv(owner, After(owner, s, moves[..n]), moves[n]);
    }
  }

  // ---- The history ----------------------------------------------------------------------------------

  /** The database after the first `n` committed transactions, each executed in one go. */
  ghost function InTurn(start: Db, history: seq<Txn>, n: nat): Option<Db>
    requires n <= |history|
  {
    if n == 0 then Some(start)
    else
      match InTurn(start, history, n - 1)
      case None => None
      case Some(d) => Replay(d, history[n - 1].log)
  }

  /** What is committed is what the transactions leave one after the other, and each of them
      stands for its step. */
  ghost predicate Serialized(owner: AssetOwner, start: Db, s: System) {
    && InTurn(start, s.history, |s.history|) == Some(s.committed)
    && (forall n :: 0 <= n <= |s.history| ==> InTurn(start, s.history, n).Some? && AssetsHome(owner, InTurn(start, s.history, n).value))
    && (forall i :: 0 <= i < |s.history| ==> StandsFor(owner, s.history[i].step, s.history[i].log))
  }

  lemma {:induction false} InTurnPrefix(start: Db, history: seq<Txn>, txn: Txn, n: nat)
    requires n <= |history|
    ensures InTurn(start, history + [txn], n) == InTurn(start, history, n)
  {
    if n > 0 {
      InTurnPrefix(start, history, txn, n - 1);
      assert (history + [txn])[n - 1] == history[n - 1];
    }
  }

  lemma MoveKeepsSerialized(owner: AssetOwner, start: Db, s: System, m: Move)
    requires Inv(owner, s) && CanMove(s, m) && Serialized(owner, start, s)
    ensures Serialized(owner, start, Moved(owner, s, m))
  {
    hide Sees, AssetsHome, Exclusive, Advanced, Effect, StandsFor, Replay, AllPermitted, Permitted;
    if m.Advance? && s.procs[m.p].rest[0].Commit? {
      var c := s.procs[m.p];
      var h, txn := s.history, Txn(c.rest[0].step, c.log);
      assert Consistent(owner, s.committed, c);
      SeesShape(owner, s.committed, c);
      forall n | 0 <= n <= |h| ensures InTurn(start, h + [txn], n) == InTurn(start, h, n) {
        InTurnPrefix(start, h, txn, n);
      }
      assert (h + [txn])[|h|] == txn;
      assert InTurn(start, h + [txn], |h| + 1) == Replay(s.committed, c.log);
      assert forall i :: 0 <= i < |h| ==> (h + [txn])[i] == h[i];
    }
  }

  lemma {:induction false} RunIsSerial(owner: AssetOwner, s: System, moves: seq<Move>)
    requires Inv(owner, s) && s.history == [] && CanRun(owner, s, moves)
    ensures Serialized(owner, s.committed, After(owner, s, moves))
  {
    hide CanMove, Moved, Consistent, Exclusive;
    if moves != [] {
      var n := |moves| - 1;
      RunIsSerial(owner, s, moves[..n]);
      RunKeepsInv(owner, s, moves[..n]);
      MoveKeepsSerialized(owner, s.committed, After(owner, s, moves[..n]), moves[n]);
    }
  }
}
