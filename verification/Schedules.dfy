/** Schedules built move by move, and one that no order of whole steps explains: readiness is
    withdrawn under no lock, so a cleanup may prune one document and spare the next. */
module Schedules {
  import opened Text
  import opened ChunkIdentity
  import opened Store
  import opened Reconcile
  import opened SharedRows
  import opened Cells
  import opened Statements
  import opened Rights
  import opened Interleaving
  import opened Transactions
  import opened SerialWriters
  import opened ConcurrentWriters
  import Agreement
  import P = Protocol
  import Refinement
  import Runs
  import SerialRuns
  import StepStatements

  ghost predicate Reaches(owner: AssetOwner, s: System, t: System) {
    exists moves :: CanRun(owner, s, moves) && After(owner, s, moves) == t
  }

  lemma ReachesItself(owner: AssetOwner, s: System)
    ensures Reaches(owner, s, s)
  {
    assert CanRun(owner, s, []) && After(owner, s, []) == s;
  }

  lemma ReachesOn(owner: AssetOwner, s: System, t: System, m: Move)
    requires Reaches(owner, s, t) && CanMove(t, m)
    ensures Reaches(owner, s, Moved(owner, t, m))
  {
    hide CanMove, Moved;
    var moves :| CanRun(owner, s, moves) && After(owner, s, moves) == t;
    var more := moves + [m];
    assert more[..|more| - 1] == moves;
    assert CanRun(owner, s, more) && After(owner, s, more) == Moved(owner, t, m);
  }

  /** Nothing has happened to the other processes. */
  ghost predicate OthersWait(s: System, t: System, p: nat) {
    |t.procs| == |s.procs| && forall q :: 0 <= q < |s.procs| && q != p ==> t.procs[q] == s.procs[q]
  }

  lemma LockReached(owner: AssetOwner, start: System, s: System, p: nat, l: P.Lock, tail: seq<Act>) returns (t: System)
    requires Reaches(owner, start, s) && Inv(owner, s) && p < |s.procs| && s.procs[p].rest == [LockTx(l)] + tail
    requires !HeldElsewhere(s, p, l)
    ensures Reaches(owner, start, t) && Inv(owner, t) && OthersWait(s, t, p) && t.committed == s.committed && t.history == s.history
    ensures t.procs[p] == s.procs[p].(own := s.procs[p].own.(tx := s.procs[p].own.tx + {l}), rest := tail)
  {
    hide Inv, Reaches, Sees;
    t := Moved(owner, s, Advance(p));
    ReachesOn(owner, start, s, Advance(p));
    MoveKeepsInv(owner, s, Advance(p));
    assert s.procs[p].rest[1..] == tail;
  }

  lemma CommitReached(owner: AssetOwner, start: System, s: System, p: nat, step: Runs.Step, tail: seq<Act>) returns (t: System)
    requires Reaches(owner, start, s) && Inv(owner, s) && p < |s.procs| && s.procs[p].rest == [Commit(step)] + tail
    ensures Reaches(owner, start, t) && Inv(owner, t) && OthersWait(s, t, p) && t.history == s.history + [Txn(step, s.procs[p].log)]
    ensures Replay(s.committed, s.procs[p].log) == Some(t.committed)
  {
    hide Reaches, Sees, Replay, CellsOf, AllPermitted, AssetsHome, Follows;
    t := Moved(owner, s, Advance(p));
    assert Consistent(owner, s.committed, s.procs[p]);
    ReachesOn(owner, start, s, Advance(p));
    MoveKeepsInv(owner, s, Advance(p));
  }

  lemma StatementReached(owner: AssetOwner, start: System, s: System, p: nat, st: Stmt, tail: seq<Act>) returns (t: System)
    requires Reaches(owner, start, s) && Inv(owner, s) && p < |s.procs| && s.procs[p].rest == [Do(st)] + tail
    requires Replay(s.committed, s.procs[p].log + [st]).Some?
    requires st.SeeReady? ==> st.ready == s.committed.ready && LooksOnly(s.procs[p].log)
    ensures Reaches(owner, start, t) && Inv(owner, t) && OthersWait(s, t, p) && t.committed == s.committed && t.history == s.history
    ensures t.procs[p].own == s.procs[p].own && t.procs[p].rest == tail && t.procs[p].log == s.procs[p].log + [st]
  {
    hide Reaches, Sees, CellsOf, AllPermitted, AssetsHome, Follows, Effect, Redone, Writes;
    var c := s.procs[p];
    assert Consistent(owner, s.committed, c);
    assert (c.log + [st])[..|c.log + [st]| - 1] == c.log;
    if st.SeeReady? {
      SerialRuns.SeesReady(owner, s.committed, c);
    }
    SeenNow(Sees(s.committed, c), st);
    t := Moved(owner, s, Advance(p));
    ReachesOn(owner, start, s, Advance(p));
    MoveKeepsInv(owner, s, Advance(p));
    assert c.rest[1..] == tail;
  }

  lemma SeenNow(db: Db, st: Stmt)
    requires Redone(db, st).Some? && (st.SeeReady? ==> st.ready == db.ready)
    ensures Effect(db, st).Some?
  {
  }

  /** A process executes some statements while the others wait. */
  lemma {:induction false} StatementsReached(owner: AssetOwner, start: System, s: System, p: nat, stmts: seq<Stmt>, tail: seq<Act>)
      returns (t: System)
    requires Reaches(owner, start, s) && Inv(owner, s) && p < |s.procs| && s.procs[p].rest == Dos(stmts) + tail
    requires Replay(s.committed, s.procs[p].log + stmts).Some? && SawOnly(stmts, s.committed.ready)
    requires LooksOnly(s.procs[p].log + stmts) || SetsOnly(stmts)
    ensures Reaches(owner, start, t) && Inv(owner, t) && OthersWait(s, t, p) && t.committed == s.committed && t.history == s.history
    ensures t.procs[p].own == s.procs[p].own && t.procs[p].rest == tail && t.procs[p].log == s.procs[p].log + stmts
    decreases |stmts|
  {
    hide Reaches, Inv, Replay;
    var log := s.procs[p].log;
    if stmts == [] {
      assert Dos(stmts) + tail == tail && log + stmts == log;
      t := s;
    } else {
      var st, more := stmts[0], stmts[1..];
      assert Dos(stmts) + tail == [Do(st)] + (Dos(more) + tail);
      assert log + stmts == (log + [st]) + more;
      ReplayBoth(s.committed, log + [st], more);
      assert LooksOnly(log + stmts) ==> LooksOnly(log) by {
        assert forall i :: 0 <= i < |log| ==> (log + stmts)[i] == log[i];
      }
      var u := StatementReached(owner, start, s, p, st, Dos(more) + tail);
      assert forall i :: 0 <= i < |more| ==> more[i] == stmts[i + 1];
      t := StatementsReached(owner, start, u, p, more, tail);
    }
  }

  // ---- A cleanup and a withdrawal -----------------------------------------------------------------------

  /** Two documents are gone from the directory of a ready catalog, and no other profile has
      published them. */
  ghost predicate TwoMissing(owner: AssetOwner, db: Db, m: string, scan: Scan, k: DocKey, j: DocKey) {
    && AssetsHome(owner, db) && db.ready && m in db.profiles && k != j
    && Enumerates([k, j], MissingKeys(db.profiles[m].catalog, scan)) && k in db.sources && j in db.sources
    && forall n :: n in db.profiles && n != m ==> k !in db.profiles[n].catalog && j !in db.profiles[n].catalog
  }

  lemma RemovedUnpublished(db: Db, m: string, scan: Scan, k: DocKey, j: DocKey)
    requires m in db.profiles && k != j && Enumerates([k, j], MissingKeys(db.profiles[m].catalog, scan)) && k in db.sources && j in db.sources
    requires forall n :: n in db.profiles && n != m ==> k !in db.profiles[n].catalog && j !in db.profiles[n].catalog
    ensures var d := Refinement.Unpublished(db, m, scan);
            !Published(d, k) && !Published(d, j) && d.sources == db.sources && d.ready == db.ready
  {
    hide MissingKeys, DeleteGroups;
    var ks := set x | x in [k, j];
    assert k in ks && j in ks by {
      assert [k, j][0] == k && [k, j][1] == j;
    }
  }

  /** The cleanup that found the catalog ready for the first document and not for the second. */
  lemma SplitCleanup(owner: AssetOwner, db: Db, m: string, scan: Scan, k: DocKey, j: DocKey)
    requires TwoMissing(owner, db, m, scan, k, j)
    ensures var r := Replay(db.(ready := false), CleanupStmts(m, scan, [k, j], [true, false]));
            r.Some? && k !in r.value.sources && j in r.value.sources
  {
    hide MissingKeys, DeleteGroups, Replay, AssetsHome, Refinement.Unpublished;
    var d := db.(ready := false);
    var order, seen := [k, j], [true, false];
    var ks := set x | x in order;
    var look, three := [SeeMissing(m, scan, order)], [DeleteChunks(m, ks), DropPublications(m, ks), RaiseRevision(Scope(scan.workspace, m, scan.chunking))];
    ReplayBoth(d, look, three + PruneEach(order, seen));
    ReplayOne(d, look[0]);
    SawMissing(d, m, scan, order);
    UnpublishedReplayed(d, m, scan, order);
    ReplayBoth(d, three, PruneEach(order, seen));
    RemovedUnpublished(d, m, scan, k, j);
    var e := Refinement.Unpublished(d, m, scan);
    PruneTwice(e, k, j);
    assert !Published(e, k);
  }

  lemma PruneTwice(e: Db, k: DocKey, j: DocKey)
    ensures Replay(e, PruneEach([k, j], [true, false])) == Some(PrunedAs(e, k, true))
    ensures !Published(e, k) && k in e.sources ==> PrunedAs(e, k, true).sources == e.sources - {k}
  {
    var order, seen := [k, j], [true, false];
    assert order[..1] == [k] && seen[..1] == [true] && [k][..0] == [] && [true][..0] == [];
    assert PruneEach([k], [true]) == [] + PruneStmts(k, true);
    assert [] + PruneStmts(k, true) == PruneStmts(k, true);
    hide PruneStmts, Replay;
    ReplayBoth(e, PruneStmts(k, true), PruneStmts(j, false));
    PruneReplayed(e, k, true);
    PruneReplayed(PrunedAs(e, k, true), j, false);
  }

  /** Both orders of the two steps leave something else. */
  lemma WholeStepsPruneBothOrNone(owner: AssetOwner, db: Db, m: string, scan: Scan, k: DocKey, j: DocKey)
    requires TwoMissing(owner, db, m, scan, k, j)
    ensures var cleanup := Runs.Cleanup(m, scan, [k, j]);
            k in Runs.Run(db, [Runs.Suspend, cleanup]).sources && j !in Runs.Run(db, [cleanup, Runs.Suspend]).sources
  {
    hide MissingKeys, DeleteGroups, AssetsHome;
    var cleanup := Runs.Cleanup(m, scan, [k, j]);
    var d := db.(ready := false);
    assert [Runs.Suspend, cleanup][..1] == [Runs.Suspend] && [cleanup, Runs.Suspend][..1] == [cleanup];
    assert [Runs.Suspend][..0] == [] && [cleanup][..0] == [] && [k, j][..1] == [k] && [k][..0] == [];
    RemovedUnpublished(d, m, scan, k, j);
    RemovedUnpublished(db, m, scan, k, j);
    Cleaned(d, m, scan, k, j);
    Cleaned(db, m, scan, k, j);
    assert Runs.Run(db, [Runs.Suspend]) == d;
    hide DeleteMissing, Refinement.Unpublished;
    assert Runs.Run(db, [cleanup]) == DeleteMissing(db, m, scan, [k, j]);
    UnreadyPrunesNothing(Refinement.Unpublished(d, m, scan), k, j);
    ReadyPrunesBoth(Refinement.Unpublished(db, m, scan), k, j);
  }

  lemma Cleaned(db: Db, m: string, scan: Scan, k: DocKey, j: DocKey)
    requires m in db.profiles && Enumerates([k, j], MissingKeys(db.profiles[m].catalog, scan))
    ensures DeleteMissing(db, m, scan, [k, j]) == PruneAll(Refinement.Unpublished(db, m, scan), [k, j])
  {
    hide MissingKeys, DeleteGroups, PruneAll;
    assert [k, j][0] == k;
    assert k in (set x | x in [k, j]);
    assert k in MissingKeys(db.profiles[m].catalog, scan);
    assert Agreement.CleanedProfile(db.profiles[m], scan)
        == db.profiles[m].(table := DeleteGroups(db.profiles[m].table, MissingKeys(db.profiles[m].catalog, scan)),
                           catalog := db.profiles[m].catalog - MissingKeys(db.profiles[m].catalog, scan));
  }

  lemma PrunedInOrder(d: Db, k: DocKey, j: DocKey)
    ensures PruneAll(d, [k, j]) == Prune(Prune(d, k), j)
  {
    hide Prune;
    assert [k, j][..1] == [k] && [k][..0] == [];
    assert PruneAll(d, []) == d;
    assert PruneAll(d, [k]) == Prune(PruneAll(d, []), k);
    assert PruneAll(d, [k, j]) == Prune(PruneAll(d, [k]), j);
  }

  lemma UnreadyPrunesNothing(d: Db, k: DocKey, j: DocKey)
    requires !d.ready
    ensures PruneAll(d, [k, j]) == d
  {
    PrunedInOrder(d, k, j);
  }

  lemma ReadyPrunesBoth(d: Db, k: DocKey, j: DocKey)
    requires d.ready && !Published(d, j)
    ensures j !in PruneAll(d, [k, j]).sources
  {
    PrunedInOrder(d, k, j);
    assert !Published(Prune(d, k), j);
  }

  // ---- The schedule ---------------------------------------------------------------------------------------

  lemma JustOne(owner: AssetOwner, registry: set<string>, w: Writer)
    requires Proper(owner, registry, w)
    ensures AllProper(owner, registry, [w]) && Programs(owner, registry, [w]) == Program(owner, registry, w)
  {
    hide Proper, Program;
    assert [w][1..] == [];
    assert Program(owner, registry, w) + [] == Program(owner, registry, w);
  }

  /** A reconciliation of a registry whose profiles have no storage. */
  lemma SomeReconciliation(owner: AssetOwner, registry: set<string>) returns (w: Writer)
    ensures Proper(owner, registry, w) && w.Reconciling?
  {
    var names := StepStatements.ListedIn(registry);
    var work := seq(|names|, i requires 0 <= i < |names| => (names[i], Plan([], [])));
    w := Reconciling(names, work, (_, _, _) => Display("", "", ""), 0, seq(|names|, _ => NoStorage));
    assert forall n :: n in Runs.WorkNames(work) ==> n in names;
    forall n | n in names ensures n in Runs.WorkNames(work) {
      var i :| 0 <= i < |names| && names[i] == n;
      assert work[i] in work;
    }
  }

  /** The statements of the cleanup up to the pruning of the first document. */
  function UpToFirst(m: string, scan: Scan, k: DocKey, j: DocKey): seq<Stmt> {
    var ks := set x | x in [k, j];
    [DeleteChunks(m, ks), DropPublications(m, ks), RaiseRevision(Scope(scan.workspace, m, scan.chunking))] + PruneStmts(k, true)
  }

  lemma SplitStatements(m: string, scan: Scan, k: DocKey, j: DocKey)
    ensures RemovalStmts(m, scan, [k, j], [true, false]) == UpToFirst(m, scan, k, j) + [SeeReady(false)]
    ensures CleanupStmts(m, scan, [k, j], [true, false]) == [SeeMissing(m, scan, [k, j])] + UpToFirst(m, scan, k, j) + [SeeReady(false)]
    ensures LooksOnly([SeeMissing(m, scan, [k, j])] + UpToFirst(m, scan, k, j) + [SeeReady(false)])
    ensures SawOnly([SeeMissing(m, scan, [k, j])], true) && SawOnly(UpToFirst(m, scan, k, j), true)
  {
    var order, seen := [k, j], [true, false];
    assert order[..1] == [k] && seen[..1] == [true] && [k][..0] == [] && [true][..0] == [];
    assert PruneEach([k], [true]) == [] + PruneStmts(k, true);
    assert PruneEach(order, seen) == PruneStmts(k, true) + PruneStmts(j, false);
    assert PruneStmts(j, false) == [SeeReady(false)];
  }

  lemma Looks(db: Db, m: string, scan: Scan, k: DocKey, j: DocKey)
    requires m in db.profiles && Enumerates([k, j], MissingKeys(db.profiles[m].catalog, scan))
    ensures Replay(db, [SeeMissing(m, scan, [k, j])]).Some?
    ensures Replay(db, [SeeMissing(m, scan, [k, j])] + UpToFirst(m, scan, k, j)).Some?
    ensures Replay(db, CleanupStmts(m, scan, [k, j], [true, false])).Some?
  {
    hide Replay, Enumerates, MissingKeys, UpToFirst, CleanupStmts;
    var look, first, second := [SeeMissing(m, scan, [k, j])], UpToFirst(m, scan, k, j), [SeeReady(false)];
    SplitStatements(m, scan, k, j);
    CleanupReplayed(db, m, scan, [k, j], [true, false]);
    ReplayBoth(db, look + first, second);
    ReplayBoth(db, look, first);
  }

  /** The cleanup's program. */
  function CleaningActs(m: string, scan: Scan, k: DocKey, j: DocKey): seq<Act> {
    [LockTx(P.ProfileLock(m))] + (Dos([SeeMissing(m, scan, [k, j])]) + ([LockTx(P.DocLock(k))] + ([LockTx(P.DocLock(j))] + RemovalActs(m, scan, k, j))))
  }

  function RemovalActs(m: string, scan: Scan, k: DocKey, j: DocKey): seq<Act> {
    Dos(RemovalStmts(m, scan, [k, j], [true, false])) + [Commit(Runs.Cleanup(m, scan, [k, j]))]
  }

  lemma RemovalSplit(m: string, scan: Scan, k: DocKey, j: DocKey)
    ensures RemovalActs(m, scan, k, j) == Dos(UpToFirst(m, scan, k, j)) + (Dos([SeeReady(false)]) + [Commit(Runs.Cleanup(m, scan, [k, j]))])
  {
    hide UpToFirst, RemovalStmts;
    SplitStatements(m, scan, k, j);
  }

  /** The cleanup takes its locks and prunes the first document. */
  lemma FirstHalf(owner: AssetOwner, s: System, m: string, scan: Scan, k: DocKey, j: DocKey) returns (t: System)
    requires Inv(owner, s) && s.history == [] && TwoMissing(owner, s.committed, m, scan, k, j)
    requires |s.procs| == 2 && s.procs[0].log == [] && s.procs[0].own == s.procs[1].own == NO_LOCKS
    requires s.procs[0].rest == CleaningActs(m, scan, k, j)
    ensures Reaches(owner, s, t) && Inv(owner, t) && OthersWait(s, t, 0) && t.committed == s.committed && t.history == []
    ensures t.procs[0].rest == Dos([SeeReady(false)]) + [Commit(Runs.Cleanup(m, scan, [k, j]))]
    ensures t.procs[0].log == [SeeMissing(m, scan, [k, j])] + UpToFirst(m, scan, k, j)
  {
    hide Reaches, Inv, Replay, Enumerates, MissingKeys, PruneEach, UpToFirst, RemovalActs, LooksOnly, SawOnly, SetsOnly, AssetsHome;
    var look, first := [SeeMissing(m, scan, [k, j])], UpToFirst(m, scan, k, j);
    var all := RemovalActs(m, scan, k, j);
    SplitStatements(m, scan, k, j);
    LooksPart(look, first, [SeeReady(false)]);
    RemovalSplit(m, scan, k, j);
    ReachesItself(owner, s);
    var docs := [LockTx(P.DocLock(k))] + ([LockTx(P.DocLock(j))] + all);
    t := LockReached(owner, s, s, 0, P.ProfileLock(m), Dos(look) + docs);
    Looks(s.committed, m, scan, k, j);
    assert [] + look == look;
    t := StatementsReached(owner, s, t, 0, look, docs);
    t := LockReached(owner, s, t, 0, P.DocLock(k), [LockTx(P.DocLock(j))] + all);
    t := LockReached(owner, s, t, 0, P.DocLock(j), all);
    t := StatementsReached(owner, s, t, 0, first, Dos([SeeReady(false)]) + [Commit(Runs.Cleanup(m, scan, [k, j]))]);
  }

  lemma LooksPart(a: seq<Stmt>, b: seq<Stmt>, c: seq<Stmt>)
    requires LooksOnly(a + b + c)
    ensures LooksOnly(a) && LooksOnly(a + b)
  {
    assert forall i :: 0 <= i < |a + b| ==> (a + b + c)[i] == (a + b)[i];
    assert forall i :: 0 <= i < |a| ==> (a + b)[i] == a[i];
  }

  /** The schedule: the cleanup looks at `ready` for the first document, the withdrawal commits,
      the cleanup looks again for the second. */
  lemma Scheduled(owner: AssetOwner, s: System, m: string, scan: Scan, k: DocKey, j: DocKey, more: seq<Act>) returns (t: System)
    requires Inv(owner, s) && s.history == [] && TwoMissing(owner, s.committed, m, scan, k, j)
    requires |s.procs| == 2 && s.procs[0].log == s.procs[1].log == [] && s.procs[0].own == s.procs[1].own == NO_LOCKS
    requires s.procs[0].rest == CleaningActs(m, scan, k, j)
    requires s.procs[1].rest == [Do(PutReady(false))] + ([Commit(Runs.Suspend)] + more)
    ensures Reaches(owner, s, t)
    ensures t.history == [Txn(Runs.Suspend, [PutReady(false)]), Txn(Runs.Cleanup(m, scan, [k, j]), CleanupStmts(m, scan, [k, j], [true, false]))]
    ensures Replay(s.committed.(ready := false), CleanupStmts(m, scan, [k, j], [true, false])) == Some(t.committed)
  {
    hide Reaches, Inv, Replay, Enumerates, MissingKeys, PruneEach, UpToFirst, CleanupStmts, CleaningActs, LooksOnly, SetsOnly, AssetsHome;
    var db, cleanup, second := s.committed, Runs.Cleanup(m, scan, [k, j]), [SeeReady(false)];
    t := FirstHalf(owner, s, m, scan, k, j);
    var log := t.procs[0].log;
    WithdrawalReplayed(db);
    assert [] + [PutReady(false)] == [PutReady(false)];
    t := StatementReached(owner, s, t, 1, PutReady(false), [Commit(Runs.Suspend)] + more);
    t := CommitReached(owner, s, t, 1, Runs.Suspend, more);
    Looks(db.(ready := false), m, scan, k, j);
    SplitStatements(m, scan, k, j);
    assert log + second == CleanupStmts(m, scan, [k, j], [true, false]);
    t := StatementsReached(owner, s, t, 0, second, [Commit(cleanup)]);
    assert [Commit(cleanup)] == [Commit(cleanup)] + [];
    t := CommitReached(owner, s, t, 0, cleanup, []);
  }

  lemma WithdrawalReplayed(db: Db)
    ensures Replay(db, [PutReady(false)]) == Some(db.(ready := false))
  {
    ReplayOne(db, PutReady(false));
  }

  lemma TwoOrders(a: Runs.Step, b: Runs.Step, order: seq<Runs.Step>)
    requires multiset(order) == multiset([a, b])
    ensures order == [a, b] || order == [b, a]
  {
    assert |order| == |multiset(order)| == |multiset([a, b])| == 2;
    assert order == [order[0], order[1]];
    assert multiset(order) == multiset{order[0], order[1]} == multiset{a, b};
    assert order[0] in multiset{a, b};
    assert multiset{order[0], order[1]} - multiset{order[0]} == multiset{order[1]};
    if order[0] == a {
      assert multiset{a, b} - multiset{a} == multiset{b};
    } else {
      assert multiset{a, b} - multiset{b} == multiset{a};
    }
    assert order[1] in multiset{order[1]};
  }

  /** Readiness is withdrawn under no lock.  When that happens between the two prunings of a
      cleanup, which so sees `ready` change, what is committed is what no order of the two steps
      leaves: one document's source is gone and the other's is still there. */
  lemma WithdrawalSplitsACleanup(owner: AssetOwner, db: Db, m: string, scan: Scan, k: DocKey, j: DocKey)
      returns (jobs: seq<seq<Writer>>, moves: seq<Move>)
    requires TwoMissing(owner, db, m, scan, k, j)
    ensures Starts(owner, db, jobs) && CanRun(owner, Start(owner, db, jobs), moves)
    ensures var t := After(owner, Start(owner, db, jobs), moves);
            && SerialRuns.Steps(t.history) == [Runs.Suspend, Runs.Cleanup(m, scan, [k, j])]
            && forall order :: multiset(order) == multiset(SerialRuns.Steps(t.history)) ==> t.committed != Runs.Run(db, order)
  {
    hide MissingKeys, Enumerates, AssetsHome, Replay, Program, Runs.Run, CleanupStmts, RemovalStmts, Inv, Proper;
    var registry := db.profiles.Keys;
    var w := Cleaning(m, scan, [k, j], [k, j], [true, false]);
    var v := SomeReconciliation(owner, registry);
    CleaningIsProper(owner, registry, m, scan, k, j);
    jobs := [[w], [v]];
    JustOne(owner, registry, w);
    JustOne(owner, registry, v);
    assert Starts(owner, db, jobs);
    var s := Start(owner, db, jobs);
    StartInv(owner, db, jobs);
    CleaningProgram(owner, registry, m, scan, k, j);
    var more := ReconcilingProgram(owner, registry, v);
    var t := Scheduled(owner, s, m, scan, k, j, more);
    moves :| CanRun(owner, s, moves) && After(owner, s, moves) == t;
    NoOrderExplains(owner, db, m, scan, k, j, t);
  }

  lemma NoOrderExplains(owner: AssetOwner, db: Db, m: string, scan: Scan, k: DocKey, j: DocKey, t: System)
    requires TwoMissing(owner, db, m, scan, k, j)
    requires t.history == [Txn(Runs.Suspend, [PutReady(false)]), Txn(Runs.Cleanup(m, scan, [k, j]), CleanupStmts(m, scan, [k, j], [true, false]))]
    requires Replay(db.(ready := false), CleanupStmts(m, scan, [k, j], [true, false])) == Some(t.committed)
    ensures SerialRuns.Steps(t.history) == [Runs.Suspend, Runs.Cleanup(m, scan, [k, j])]
    ensures forall order :: multiset(order) == multiset(SerialRuns.Steps(t.history)) ==> t.committed != Runs.Run(db, order)
  {
    hide TwoMissing, Replay, Runs.Run, CleanupStmts;
    var cleanup := Runs.Cleanup(m, scan, [k, j]);
    assert SerialRuns.Steps(t.history) == [Runs.Suspend, cleanup];
    SplitCleanup(owner, db, m, scan, k, j);
    WholeStepsPruneBothOrNone(owner, db, m, scan, k, j);
    forall order | multiset(order) == multiset(SerialRuns.Steps(t.history)) ensures t.committed != Runs.Run(db, order) {
      TwoOrders(Runs.Suspend, cleanup, order);
    }
  }

  lemma CleaningIsProper(owner: AssetOwner, registry: set<string>, m: string, scan: Scan, k: DocKey, j: DocKey)
    requires m in registry
    ensures Proper(owner, registry, Cleaning(m, scan, [k, j], [k, j], [true, false]))
  {
  }

  lemma CleaningProgram(owner: AssetOwner, registry: set<string>, m: string, scan: Scan, k: DocKey, j: DocKey)
    requires Proper(owner, registry, Cleaning(m, scan, [k, j], [k, j], [true, false]))
    ensures Program(owner, registry, Cleaning(m, scan, [k, j], [k, j], [true, false])) == CleaningActs(m, scan, k, j)
  {
    hide RemovalStmts;
    assert [k, j][..1] == [k] && [k][..0] == [];
    assert DocLocks([k]) == [] + [LockTx(P.DocLock(k))];
    assert DocLocks([k, j]) == DocLocks([k]) + [LockTx(P.DocLock(j))];
  }

  lemma ReconcilingProgram(owner: AssetOwner, registry: set<string>, v: Writer) returns (more: seq<Act>)
    requires v.Reconciling? && Proper(owner, registry, v)
    ensures Program(owner, registry, v) == [Do(PutReady(false))] + ([Commit(Runs.Suspend)] + more)
  {
    hide CertificationStmts, WorkRead, AllOwned;
    more := SessionLocks(v.names) + Dos(CertificationStmts(v.work, v.clean, v.now, v.profiles)) + [Commit(Runs.Certification(v.work, v.clean, v.now))]
            + SessionUnlocks(v.names);
  }
}
