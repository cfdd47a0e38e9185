/** Any number of processes, each running any sequence of ingestions, cleanups, warms and
    reconciliations, interleaved statement by statement. */
module ConcurrentWriters {
  import opened Text
  import opened ChunkIdentity
  import opened Store
  import opened Reconcile
  import opened SharedRows
  import opened Cells
  import opened Statements
  import opened Rights
  import opened Interleaving
  import opened Transactions
  import opened SerialWriters
  import Agreement
  import P = Protocol
  import Runs
  import SerialOrder
  import SerialRuns
  import W = Writers

  // ---- Programs ------------------------------------------------------------------------------------

  /** A document as a warm publishes it. */
  datatype Warmed = Warmed(doc: Document, items: seq<Item>, assets: seq<AssetRecord>, now: int, found: Reads)

  /** A writer with what its reads return: an ingestion that publishes or finds its version there,
      a cleanup, a warm under the locks of two profiles, a reconciliation of the registry. */
  datatype Writer =
    | Publishing(model: string, doc: Document, chunks: seq<Runs.Chunk>, assets: seq<AssetRecord>, now: int, found: Reads)
    | Repeating(model: string, doc: Document, chunks: seq<Runs.Chunk>, assets: seq<AssetRecord>, now: int)
    | Cleaning(model: string, scan: Scan, keys: seq<DocKey>, order: seq<DocKey>, seen: seq<bool>)
    | WarmingUp(names: seq<string>, target: string, docs: seq<Warmed>)
    | Reconciling(names: seq<string>, work: seq<(string, Plan)>, clean: Cleaner, now: int, profiles: seq<ProfileReads>)

  /** Profiles are registered, documents missing from a scan are locked, a warm has locked its
      target, a reconciliation the whole registry; assets have the ids of their document, as the
      query by document returns them. */
  ghost predicate Proper(owner: AssetOwner, registry: set<string>, w: Writer) {
    match w
    case Publishing(m, doc, _, assets, _, _) => m in registry && Owned(owner, assets, doc.key)
    case Repeating(m, _, _, _, _) => m in registry
    case Cleaning(m, _, keys, order, seen) => m in registry && |order| == |seen| && forall k :: k in keys <==> k in order
    case WarmingUp(names, m, docs) =>
      m in registry && m in names && forall i :: 0 <= i < |docs| ==> Owned(owner, docs[i].assets, docs[i].doc.key)
    case Reconciling(names, work, _, _, rs) =>
      WorkRead(work, rs) && (set n | n in names) == registry && Runs.WorkNames(work) == registry && AllOwned(owner, work, rs)
  }

  ghost predicate AllOwned(owner: AssetOwner, work: seq<(string, Plan)>, rs: seq<ProfileReads>) {
    |rs| == |work| && forall i :: 0 <= i < |rs| && rs[i].Storage? ==> RefsOwned(owner, work[i].1.groups, rs[i].groups)
  }

  ghost predicate RefsOwned(owner: AssetOwner, groups: seq<Group>, rs: seq<GroupReads>) {
    |rs| == |groups| && forall i, a :: 0 <= i < |rs| && a in rs[i].ids ==> owner(a) == groups[i].key
  }

  function StatusActs(m: string, status: Status): seq<Act> {
    [Do(PutStatus(m, status)), Commit(Runs.SetStatus(m, status))]
  }

  function WarmActs(m: string, docs: seq<Warmed>): seq<Act> {
    if docs == [] then []
    else
      var d := docs[0];
      PublicationActs(m, d.doc.key, WrittenStmts(m, d.doc, d.items, d.assets, true, d.now, d.found),
                      Runs.WarmPublish(m, d.doc, d.items, d.assets, d.now))
      + WarmActs(m, docs[1..])
  }

  ghost function Program(owner: AssetOwner, registry: set<string>, w: Writer): seq<Act>
    requires Proper(owner, registry, w)
  {
    match w
    case Publishing(m, doc, chunks, assets, now, r) =>
      PublicationActs(m, doc.key, IngestStmts(m, doc, chunks, assets, now, r), Runs.Ingest(m, doc, chunks, assets, now))
    case Repeating(m, doc, chunks, assets, now) =>
      PublicationActs(m, doc.key, [SeeOutcome(m, doc, false, Unchanged)], Runs.Ingest(m, doc, chunks, assets, now))
    case Cleaning(m, scan, keys, order, seen) =>
      [LockTx(P.ProfileLock(m))] + Dos([SeeMissing(m, scan, order)]) + DocLocks(keys) + Dos(RemovalStmts(m, scan, order, seen))
      + [Commit(Runs.Cleanup(m, scan, order))]
    case WarmingUp(names, m, docs) =>
      SessionLocks(names) + StatusActs(m, Status.Warming) + WarmActs(m, docs) + StatusActs(m, Status.Ready) + SessionUnlocks(names)
    case Reconciling(names, work, clean, now, rs) =>
      [Do(PutReady(false)), Commit(Runs.Suspend)] + SessionLocks(names)
      + Dos(CertificationStmts(work, clean, now, rs)) + [Commit(Runs.Certification(work, clean, now))] + SessionUnlocks(names)
  }

  // ---- Ingestion and cleanup -------------------------------------------------------------------------

  lemma AboutLooksOnly(owner: AssetOwner, stmts: seq<Stmt>, m: string, ks: set<DocKey>)
    requires AllAbout(owner, stmts, m, ks)
    ensures LooksOnly(stmts)
  {
  }

  lemma PublishingFollows(owner: AssetOwner, registry: set<string>, own: P.Own, w: Writer, tail: seq<Act>)
    requires own.tx == {} && (w.Publishing? || w.Repeating?) && Proper(owner, registry, w) && Follows(owner, registry, own, [], tail)
    ensures Follows(owner, registry, own, [], Program(owner, registry, w) + tail)
  {
    hide StandsFor, AllAbout, Follows, WrittenStmts;
    var m, k, step := w.model, w.doc.key, Runs.Ingest(w.model, w.doc, w.chunks, w.assets, w.now);
    var stmts := if w.Publishing? then IngestStmts(m, w.doc, w.chunks, w.assets, w.now, w.found) else [SeeOutcome(m, w.doc, false, Unchanged)];
    if w.Publishing? {
      IngestStands(owner, m, w.doc, w.chunks, w.assets, w.now, w.found);
      var look := [SeeOutcome(m, w.doc, false, Outcome.Written)];
      OneAbout(owner, look[0], m, {k});
      WrittenAbout(owner, m, w.doc, Runs.IngestItems(w.doc, w.chunks), w.assets, false, w.now, w.found);
      AboutBoth(owner, look, WrittenStmts(m, w.doc, Runs.IngestItems(w.doc, w.chunks), w.assets, false, w.now, w.found), m, {k});
    } else {
      UnchangedStands(owner, m, w.doc, w.chunks, w.assets, w.now);
      OneAbout(owner, stmts[0], m, {k});
    }
    AboutLooksOnly(owner, stmts, m, {k});
    PublicationFollows(owner, registry, own, m, k, stmts, step, tail);
  }

  lemma OneAbout(owner: AssetOwner, st: Stmt, m: string, ks: set<DocKey>)
    requires (st.SeeOutcome? || st.SeeMissing? || st.PutStatus?) && st.model == m
    ensures AllAbout(owner, [st], m, ks)
  {
  }

  lemma RemovalAbout(owner: AssetOwner, m: string, scan: Scan, order: seq<DocKey>, seen: seq<bool>)
    requires |order| == |seen|
    ensures AllAbout(owner, RemovalStmts(m, scan, order, seen), m, set k | k in order)
  {
    hide PruneEach;
    var ks := set k | k in order;
    PrunesAbout(owner, m, order, seen, ks);
    var three := [DeleteChunks(m, ks), DropPublications(m, ks), RaiseRevision(Scope(scan.workspace, m, scan.chunking))];
    assert AllAbout(owner, three, m, ks);
    AboutBoth(owner, three, PruneEach(order, seen), m, ks);
  }

  /** What the cleanup has locked when it looks for missing documents and when it removes them. */
  lemma CleaningPermitted(owner: AssetOwner, registry: set<string>, own: P.Own, w: Writer)
    requires own.tx == {} && w.Cleaning? && Proper(owner, registry, w)
    ensures var look, rest := [SeeMissing(w.model, w.scan, w.order)], RemovalStmts(w.model, w.scan, w.order, w.seen);
            var first := own.(tx := {P.ProfileLock(w.model)});
            && AllPermitted(owner, registry, first, look)
            && AllPermitted(owner, registry, first.(tx := first.tx + W.DocLocks(w.keys)), rest)
            && LooksOnly(look) && SetsOnly(look) && LooksOnly(rest)
  {
    hide AllAbout, RemovalStmts, AllPermitted, LooksOnly;
    var m, ks := w.model, (set k | k in w.order);
    var look, rest := [SeeMissing(m, w.scan, w.order)], RemovalStmts(m, w.scan, w.order, w.seen);
    var first := own.(tx := {P.ProfileLock(m)});
    var all := first.(tx := first.tx + W.DocLocks(w.keys));
    RemovalAbout(owner, m, w.scan, w.order, w.seen);
    OneAbout(owner, look[0], m, {});
    AboutLooksOnly(owner, rest, m, ks);
    AboutLooksOnly(owner, look, m, {});
    assert HasProfile(first, m) && HasProfile(all, m);
    forall k | k in ks ensures P.Covers(registry, all, k) {
      assert P.DocLock(k) in W.DocLocks(w.keys);
      assert P.ProfileLock(m) in P.Held(all);
    }
    AllAboutIsPermitted(owner, registry, all, rest, m, ks);
    AllAboutIsPermitted(owner, registry, first, look, m, {});
  }

  lemma CleaningFollows(owner: AssetOwner, registry: set<string>, own: P.Own, w: Writer, tail: seq<Act>)
    requires own.tx == {} && w.Cleaning? && Proper(owner, registry, w) && Follows(owner, registry, own, [], tail)
    ensures Follows(owner, registry, own, [], Program(owner, registry, w) + tail)
  {
    hide StandsFor, Follows, RemovalStmts, AllPermitted, LooksOnly, SetsOnly;
    var m, step := w.model, Runs.Cleanup(w.model, w.scan, w.order);
    var look, rest := [SeeMissing(m, w.scan, w.order)], RemovalStmts(m, w.scan, w.order, w.seen);
    var first := own.(tx := {P.ProfileLock(m)});
    var all := first.(tx := first.tx + W.DocLocks(w.keys));
    CleanupStands(owner, m, w.scan, w.order, w.seen);
    CleaningPermitted(owner, registry, own, w);
    assert all.(tx := {}) == own;
    TransactionFollows(owner, registry, all, look, rest, step, tail);
    var end := Dos(rest) + [Commit(step)] + tail;
    DocLocksFollow(owner, registry, first, look, w.keys, end);
    assert [] + look == look;
    NothingLooks();
    StatementsFollow(owner, registry, first, [], look, DocLocks(w.keys) + end);
    assert own.(tx := own.tx + {P.ProfileLock(m)}) == first;
    LockFollows(owner, registry, own, [], P.ProfileLock(m), Dos(look) + (DocLocks(w.keys) + end));
    assert Program(owner, registry, w) + tail == [LockTx(P.ProfileLock(m))] + (Dos(look) + (DocLocks(w.keys) + end));
  }

  lemma NothingLooks()
    ensures LooksOnly([]) && SetsOnly([])
  {
  }

  // ---- Warming -----------------------------------------------------------------------------------------

  lemma StatusFollows(owner: AssetOwner, registry: set<string>, own: P.Own, m: string, status: Status, tail: seq<Act>)
    requires own.tx == {} && m in registry && HasProfile(own, m) && Follows(owner, registry, own, [], tail)
    ensures Follows(owner, registry, own, [], StatusActs(m, status) + tail)
  {
    hide StandsFor, Follows, AllAbout, AllPermitted;
    var put := [PutStatus(m, status)];
    SetStatusStands(owner, m, status);
    OneAbout(owner, put[0], m, {});
    AllAboutIsPermitted(owner, registry, own, put, m, {});
    assert own.(tx := {}) == own && [] + put == put;
    TransactionFollows(owner, registry, own, [], put, Runs.SetStatus(m, status), tail);
    assert Dos(put) + [Commit(Runs.SetStatus(m, status))] == StatusActs(m, status);
  }

  lemma {:induction false} WarmActsFollow(owner: AssetOwner, registry: set<string>, own: P.Own, m: string, docs: seq<Warmed>, tail: seq<Act>)
    requires own.tx == {} && m in registry && Follows(owner, registry, own, [], tail)
    requires forall i :: 0 <= i < |docs| ==> Owned(owner, docs[i].assets, docs[i].doc.key)
    ensures Follows(owner, registry, own, [], WarmActs(m, docs) + tail)
    decreases |docs|
  {
    hide StandsFor, AllAbout, Follows, WrittenStmts, PublicationActs;
    if docs == [] {
      assert WarmActs(m, docs) + tail == tail;
    } else {
      var d := docs[0];
      var k, stmts, step := d.doc.key, WrittenStmts(m, d.doc, d.items, d.assets, true, d.now, d.found),
                            Runs.WarmPublish(m, d.doc, d.items, d.assets, d.now);
      WarmActsFollow(owner, registry, own, m, docs[1..], tail);
      WarmPublishStands(owner, m, d.doc, d.items, d.assets, d.now, d.found);
      WrittenAbout(owner, m, d.doc, d.items, d.assets, true, d.now, d.found);
      AboutLooksOnly(owner, stmts, m, {k});
      PublicationFollows(owner, registry, own, m, k, stmts, step, WarmActs(m, docs[1..]) + tail);
      assert WarmActs(m, docs) + tail == PublicationActs(m, k, stmts, step) + (WarmActs(m, docs[1..]) + tail);
    }
  }

  lemma WarmingUpFollows(owner: AssetOwner, registry: set<string>, w: Writer, tail: seq<Act>)
    requires w.WarmingUp? && Proper(owner, registry, w) && Follows(owner, registry, NO_LOCKS, [], tail)
    ensures Follows(owner, registry, NO_LOCKS, [], Program(owner, registry, w) + tail)
  {
    hide StandsFor, Follows, WarmActs, StatusActs, SessionLocks, SessionUnlocks;
    var m, held := w.target, NO_LOCKS.(session := W.ProfileLocks(w.names));
    assert HasProfile(held, m);
    assert held.(session := held.session - W.ProfileLocks(w.names)) == NO_LOCKS;
    SessionUnlocksFollow(owner, registry, held, w.names, tail);
    var a := SessionUnlocks(w.names) + tail;
    StatusFollows(owner, registry, held, m, Status.Ready, a);
    var b := StatusActs(m, Status.Ready) + a;
    WarmActsFollow(owner, registry, held, m, w.docs, b);
    var c := WarmActs(m, w.docs) + b;
    StatusFollows(owner, registry, held, m, Status.Warming, c);
    var d := StatusActs(m, Status.Warming) + c;
    assert NO_LOCKS.(session := NO_LOCKS.session + W.ProfileLocks(w.names)) == held;
    SessionLocksFollow(owner, registry, NO_LOCKS, w.names, d);
    assert Program(owner, registry, w) + tail == SessionLocks(w.names) + d;
  }

  // ---- Reconciliation ----------------------------------------------------------------------------------

  /** A statement that the locks of all profiles permit. */
  ghost predicate Repairing(owner: AssetOwner, registry: set<string>, st: Stmt) {
    && KeepsHome(owner, st) && !st.SeeReady? && (ModelOf(st).Some? ==> st.model in registry)
    && (st.RaiseRevision? ==> st.scope.model in registry)
  }

  ghost predicate AllRepairing(owner: AssetOwner, registry: set<string>, stmts: seq<Stmt>) {
    forall i :: 0 <= i < |stmts| ==> Repairing(owner, registry, stmts[i])
  }

  lemma RepairingBoth(owner: AssetOwner, registry: set<string>, a: seq<Stmt>, b: seq<Stmt>)
    ensures AllRepairing(owner, registry, a + b) <==> AllRepairing(owner, registry, a) && AllRepairing(owner, registry, b)
  {
    hide Repairing;
    assert forall i :: 0 <= i < |a| ==> (a + b)[i] == a[i];
    assert forall i :: 0 <= i < |b| ==> (a + b)[|a| + i] == b[i];
  }

  lemma RepairingIsPermitted(owner: AssetOwner, registry: set<string>, own: P.Own, st: Stmt)
    requires Repairing(owner, registry, st) && forall m :: m in registry ==> P.ProfileLock(m) in own.session
    ensures Permitted(owner, registry, own, st)
  {
    hide KeepsHome;
    assert forall k :: P.Covers(registry, own, k);
    assert forall m :: m in registry ==> HasProfile(own, m);
    hide P.Covers, HasProfile;
  }

  lemma AllRepairingIsPermitted(owner: AssetOwner, registry: set<string>, own: P.Own, stmts: seq<Stmt>)
    requires AllRepairing(owner, registry, stmts) && forall m :: m in registry ==> P.ProfileLock(m) in own.session
    ensures AllPermitted(owner, registry, own, stmts) && SetsOnly(stmts)
  {
    hide Permitted;
    forall i | 0 <= i < |stmts| ensures Permitted(owner, registry, own, stmts[i]) {
      RepairingIsPermitted(owner, registry, own, stmts[i]);
    }
  }

  lemma {:induction false} RefsRepairing(owner: AssetOwner, registry: set<string>, m: string, k: DocKey, ids: seq<string>)
    requires m in registry && forall a :: a in ids ==> owner(a) == k
    ensures AllRepairing(owner, registry, AddRefs(m, k, ids))
  {
    if ids != [] {
      var n := |ids| - 1;
      RefsRepairing(owner, registry, m, k, ids[..n]);
      RepairingBoth(owner, registry, AddRefs(m, k, ids[..n]), [AddRef(Ref(m, k, ids[n]))]);
    }
  }

  lemma GroupRepairing(owner: AssetOwner, registry: set<string>, m: string, v: Table, g: Group, clean: Cleaner, now: int, r: GroupReads)
    requires m in registry && Member(v, g.first, g.key) && forall a :: a in r.ids ==> owner(a) == g.key
    ensures AllRepairing(owner, registry, GroupStmts(m, v, g, clean, now, r))
  {
    hide AddRefs, LegacyDocument;
    var begin := [SeeDocument(m, LegacyDocument(v, g, clean), r.doc), PutSource(r.doc, true)];
    var row, drop, refs := MetadataStmts(m, r.doc, r.doc.time, now, r.row, r.changes), [DropRefs(m, g.key)], AddRefs(m, g.key, r.ids);
    RefsRepairing(owner, registry, m, g.key, r.ids);
    assert AllRepairing(owner, registry, begin) && AllRepairing(owner, registry, row) && AllRepairing(owner, registry, drop);
    RepairingBoth(owner, registry, begin, row);
    RepairingBoth(owner, registry, begin + row, drop);
    RepairingBoth(owner, registry, begin + row + drop, refs);
  }

  lemma {:induction false} GroupsRepairing(owner: AssetOwner, registry: set<string>, m: string, v: Table, groups: seq<Group>,
                                           clean: Cleaner, now: int, rs: seq<GroupReads>)
    requires m in registry && Members(v, groups) && RefsOwned(owner, groups, rs)
    ensures AllRepairing(owner, registry, GroupsStmts(m, v, groups, clean, now, rs))
  {
    hide GroupStmts;
    if groups != [] {
      var n := |groups| - 1;
      GroupsRepairing(owner, registry, m, v, groups[..n], clean, now, rs[..n]);
      GroupRepairing(owner, registry, m, v, groups[n], clean, now, rs[n]);
      RepairingBoth(owner, registry, GroupsStmts(m, v, groups[..n], clean, now, rs[..n]), GroupStmts(m, v, groups[n], clean, now, rs[n]));
    }
  }

  lemma {:induction false} DropsRepairing(owner: AssetOwner, registry: set<string>, m: string, ks: seq<DocKey>)
    requires m in registry
    ensures AllRepairing(owner, registry, DropStmts(m, ks))
  {
    if ks != [] {
      var n := |ks| - 1;
      DropsRepairing(owner, registry, m, ks[..n]);
      RepairingBoth(owner, registry, DropStmts(m, ks[..n]), [DropPublications(m, {ks[n]}), RaiseRevision(ScopeOf(m, ks[n]))]);
    }
  }

  lemma ItemRepairing(owner: AssetOwner, registry: set<string>, w: (string, Plan), clean: Cleaner, now: int, r: ProfileReads)
    requires w.0 in registry && (r.Storage? ==> GroupsRead(r.v, w.1.groups, r.groups) && RefsOwned(owner, w.1.groups, r.groups))
    ensures AllRepairing(owner, registry, ItemStmts(w, clean, now, r))
  {
    hide GroupsStmts, DropStmts;
    if r.Storage? {
      var two := [SeePlan(w.0, w.1, r.v), WriteBack(w.0)];
      GroupsRepairing(owner, registry, w.0, r.v, w.1.groups, clean, now, r.groups);
      DropsRepairing(owner, registry, w.0, w.1.stale);
      assert AllRepairing(owner, registry, two);
      RepairingBoth(owner, registry, two, GroupsStmts(w.0, r.v, w.1.groups, clean, now, r.groups));
      RepairingBoth(owner, registry, two + GroupsStmts(w.0, r.v, w.1.groups, clean, now, r.groups), DropStmts(w.0, w.1.stale));
    }
  }

  lemma {:induction false} WorkRepairing(owner: AssetOwner, registry: set<string>, work: seq<(string, Plan)>, clean: Cleaner, now: int,
                                         rs: seq<ProfileReads>)
    requires WorkRead(work, rs) && AllOwned(owner, work, rs) && forall i :: 0 <= i < |work| ==> work[i].0 in registry
    ensures AllRepairing(owner, registry, WorkStmts(work, clean, now, rs))
  {
    hide ItemStmts, GroupsRead, RefsOwned;
    if work != [] {
      var n := |work| - 1;
      WorkRepairing(owner, registry, work[..n], clean, now, rs[..n]);
      ItemRepairing(owner, registry, work[n], clean, now, rs[n]);
      RepairingBoth(owner, registry, WorkStmts(work[..n], clean, now, rs[..n]), ItemStmts(work[n], clean, now, rs[n]));
    }
  }

  lemma CertificationRepairing(owner: AssetOwner, registry: set<string>, w: Writer)
    requires w.Reconciling? && Proper(owner, registry, w)
    ensures AllRepairing(owner, registry, CertificationStmts(w.work, w.clean, w.now, w.profiles))
  {
    hide WorkStmts, WorkRead, AllOwned;
    var look, body, put := [SeeRegistry(Runs.WorkNames(w.work))], WorkStmts(w.work, w.clean, w.now, w.profiles), [PutReady(true)];
    forall i | 0 <= i < |w.work| ensures w.work[i].0 in registry {
      assert w.work[i].0 in Runs.WorkNames(w.work);
    }
    WorkRepairing(owner, registry, w.work, w.clean, w.now, w.profiles);
    RepairingBoth(owner, registry, look, body);
    RepairingBoth(owner, registry, look + body, put);
  }

  lemma SuspendFollows(owner: AssetOwner, registry: set<string>, own: P.Own, tail: seq<Act>)
    requires own.tx == {} && Follows(owner, registry, own, [], tail)
    ensures Follows(owner, registry, own, [], [Do(PutReady(false)), Commit(Runs.Suspend)] + tail)
  {
    hide StandsFor, Follows, AllPermitted;
    var put := [PutReady(false)];
    SuspendStands(owner);
    WithdrawalPermitted(owner, registry, own);
    assert own.(tx := {}) == own && [] + put == put;
    TransactionFollows(owner, registry, own, [], put, Runs.Suspend, tail);
    assert Dos(put) + [Commit(Runs.Suspend)] == [Do(PutReady(false)), Commit(Runs.Suspend)];
  }

  lemma WithdrawalPermitted(owner: AssetOwner, registry: set<string>, own: P.Own)
    ensures AllPermitted(owner, registry, own, [PutReady(false)])
  {
  }

  lemma ReconcilingFollows(owner: AssetOwner, registry: set<string>, w: Writer, tail: seq<Act>)
    requires w.Reconciling? && Proper(owner, registry, w) && Follows(owner, registry, NO_LOCKS, [], tail)
    ensures Follows(owner, registry, NO_LOCKS, [], Program(owner, registry, w) + tail)
  {
    hide StandsFor, Follows, CertificationStmts, SessionLocks, SessionUnlocks, AllPermitted, AllRepairing;
    var held := NO_LOCKS.(session := W.ProfileLocks(w.names));
    var stmts, step := CertificationStmts(w.work, w.clean, w.now, w.profiles), Runs.Certification(w.work, w.clean, w.now);
    CertificationStands(owner, w.work, w.clean, w.now, w.profiles);
    CertificationRepairing(owner, registry, w);
    forall m | m in registry ensures P.ProfileLock(m) in held.session {
      assert m in (set n | n in w.names);
    }
    AllRepairingIsPermitted(owner, registry, held, stmts);
    assert held.(session := held.session - W.ProfileLocks(w.names)) == NO_LOCKS && held.(tx := {}) == held && [] + stmts == stmts;
    SessionUnlocksFollow(owner, registry, held, w.names, tail);
    TransactionFollows(owner, registry, held, [], stmts, step, SessionUnlocks(w.names) + tail);
    var body := Dos(stmts) + [Commit(step)] + (SessionUnlocks(w.names) + tail);
    assert NO_LOCKS.(session := NO_LOCKS.session + W.ProfileLocks(w.names)) == held;
    SessionLocksFollow(owner, registry, NO_LOCKS, w.names, body);
    SuspendFollows(owner, registry, NO_LOCKS, SessionLocks(w.names) + body);
    assert Program(owner, registry, w) + tail == [Do(PutReady(false)), Commit(Runs.Suspend)] + (SessionLocks(w.names) + body);
  }

  // ---- Any writers in any number ----------------------------------------------------------------------

  lemma WriterFollows(owner: AssetOwner, registry: set<string>, w: Writer, tail: seq<Act>)
    requires Proper(owner, registry, w) && Follows(owner, registry, NO_LOCKS, [], tail)
    ensures Follows(owner, registry, NO_LOCKS, [], Program(owner, registry, w) + tail)
  {
    hide Follows, Program, Proper;
    match w
    case Publishing(_, _, _, _, _, _) => PublishingFollows(owner, registry, NO_LOCKS, w, tail);
    case Repeating(_, _, _, _, _) => PublishingFollows(owner, registry, NO_LOCKS, w, tail);
    case Cleaning(_, _, _, _, _) => CleaningFollows(owner, registry, NO_LOCKS, w, tail);
    case WarmingUp(_, _, _) => WarmingUpFollows(owner, registry, w, tail);
    case Reconciling(_, _, _, _, _) => ReconcilingFollows(owner, registry, w, tail);
  }

  ghost predicate AllProper(owner: AssetOwner, registry: set<string>, ws: seq<Writer>) {
    forall i :: 0 <= i < |ws| ==> Proper(owner, registry, ws[i])
  }

  /** One process runs its writers one after the other. */
  ghost function Programs(owner: AssetOwner, registry: set<string>, ws: seq<Writer>): seq<Act>
    requires AllProper(owner, registry, ws)
  {
    if ws == [] then [] else Program(owner, registry, ws[0]) + Programs(owner, registry, ws[1..])
  }

  lemma {:induction false} WritersFollow(owner: AssetOwner, registry: set<string>, ws: seq<Writer>)
    requires AllProper(owner, registry, ws)
    ensures Follows(owner, registry, NO_LOCKS, [], Programs(owner, registry, ws))
    decreases |ws|
  {
    hide Proper, Program;
    if ws != [] {
      hide Follows;
      WritersFollow(owner, registry, ws[1..]);
      WriterFollows(owner, registry, ws[0], Programs(owner, registry, ws[1..]));
    }
  }

  ghost function Fresh(owner: AssetOwner, db: Db, ws: seq<Writer>): Proc
    requires AllProper(owner, db.profiles.Keys, ws)
  {
    Proc(NO_LOCKS, Programs(owner, db.profiles.Keys, ws), db, iset{}, [])
  }

  ghost predicate Starts(owner: AssetOwner, db: Db, jobs: seq<seq<Writer>>) {
    && AssetsHome(owner, db) && db.profiles.Keys != {}
    && forall p :: 0 <= p < |jobs| ==> AllProper(owner, db.profiles.Keys, jobs[p])
  }

  ghost function Start(owner: AssetOwner, db: Db, jobs: seq<seq<Writer>>): (s: System)
    requires Starts(owner, db, jobs)
    ensures s.committed == db && s.history == [] && |s.procs| == |jobs|
    ensures forall p :: 0 <= p < |jobs| ==> s.procs[p] == Fresh(owner, db, jobs[p])
  {
    System(db, seq(|jobs|, p requires 0 <= p < |jobs| => Fresh(owner, db, jobs[p])), [])
  }

  lemma StartInv(owner: AssetOwner, db: Db, jobs: seq<seq<Writer>>)
    requires Starts(owner, db, jobs)
    ensures Inv(owner, Start(owner, db, jobs))
  {
    hide AssetsHome, Proper, Program, Consistent, Follows;
    var s := Start(owner, db, jobs);
    SameShapeItself(db);
    forall p | 0 <= p < |s.procs| ensures Consistent(owner, s.committed, s.procs[p]) {
      WritersFollow(owner, db.profiles.Keys, jobs[p]);
      FreshConsistent(owner, db, db, NO_LOCKS, Programs(owner, db.profiles.Keys, jobs[p]));
    }
  }

  // ---- Whose steps a history holds ------------------------------------------------------------------------

  type StepRule = Runs.Step -> bool

  ghost predicate CommitsOnly(rule: StepRule, acts: seq<Act>) {
    forall i :: 0 <= i < |acts| && acts[i].Commit? ==> rule(acts[i].step)
  }

  lemma CommitsBoth(rule: StepRule, a: seq<Act>, b: seq<Act>)
    ensures CommitsOnly(rule, a + b) <==> CommitsOnly(rule, a) && CommitsOnly(rule, b)
  {
    assert forall i :: 0 <= i < |a| ==> (a + b)[i] == a[i];
    assert forall i :: 0 <= i < |b| ==> (a + b)[|a| + i] == b[i];
  }

  ghost predicate HoldsOnly(rule: StepRule, s: System) {
    && (forall p :: 0 <= p < |s.procs| ==> CommitsOnly(rule, s.procs[p].rest))
    && forall i :: 0 <= i < |s.history| ==> rule(s.history[i].step)
  }

  lemma MoveHoldsOnly(owner: AssetOwner, rule: StepRule, s: System, m: Move)
    requires HoldsOnly(rule, s) && CanMove(s, m)
    ensures HoldsOnly(rule, Moved(owner, s, m))
  {
    hide Sees, Effect, HeldElsewhere;
    var t := Moved(owner, s, m);
    assert CommitsOnly(rule, s.procs[m.p].rest);
    forall p | 0 <= p < |t.procs| ensures CommitsOnly(rule, t.procs[p].rest) {
      if p != m.p {
        assert t.procs[p] == s.procs[p];
      }
    }
  }

  lemma {:induction false} RunHoldsOnly(owner: AssetOwner, rule: StepRule, s: System, moves: seq<Move>)
    requires HoldsOnly(rule, s) && CanRun(owner, s, moves)
    ensures HoldsOnly(rule, After(owner, s, moves))
  {
    hide HoldsOnly, CanMove, Moved;
    if moves != [] {
      var n := |moves| - 1;
      RunHoldsOnly(owner, rule, s, moves[..n]);
      MoveHoldsOnly(owner, rule, After(owner, s, moves[..n]), moves[n]);
    }
  }

  /** The steps of a writer. */
  ghost predicate Does(w: Writer, step: Runs.Step) {
    match w
    case Publishing(m, doc, chunks, assets, now, _) => step == Runs.Ingest(m, doc, chunks, assets, now)
    case Repeating(m, doc, chunks, assets, now) => step == Runs.Ingest(m, doc, chunks, assets, now)
    case Cleaning(m, scan, _, order, _) => step == Runs.Cleanup(m, scan, order)
    case WarmingUp(_, m, docs) =>
      || step == Runs.SetStatus(m, Status.Warming) || step == Runs.SetStatus(m, Status.Ready)
      || exists i :: 0 <= i < |docs| && step == Runs.WarmPublish(m, docs[i].doc, docs[i].items, docs[i].assets, docs[i].now)
    case Reconciling(_, work, clean, now, _) => step == Runs.Suspend || step == Runs.Certification(work, clean, now)
  }

  ghost predicate DoneBy(jobs: seq<seq<Writer>>, step: Runs.Step) {
    exists p, i :: 0 <= p < |jobs| && 0 <= i < |jobs[p]| && Does(jobs[p][i], step)
  }

  lemma NoCommits(rule: StepRule, acts: seq<Act>)
    requires forall i :: 0 <= i < |acts| ==> !acts[i].Commit?
    ensures CommitsOnly(rule, acts)
  {
  }

  lemma {:induction false} LocksCommitNothing(names: seq<string>, keys: seq<DocKey>)
    ensures forall i :: 0 <= i < |SessionLocks(names)| ==> !SessionLocks(names)[i].Commit?
    ensures forall i :: 0 <= i < |SessionUnlocks(names)| ==> !SessionUnlocks(names)[i].Commit?
    ensures forall i :: 0 <= i < |DocLocks(keys)| ==> !DocLocks(keys)[i].Commit?
    decreases |names| + |keys|
  {
    if names != [] {
      LocksCommitNothing(names[..|names| - 1], keys);
    } else if keys != [] {
      LocksCommitNothing(names, keys[..|keys| - 1]);
    }
  }

  lemma PublicationDoes(rule: StepRule, m: string, k: DocKey, stmts: seq<Stmt>, step: Runs.Step)
    requires rule(step)
    ensures CommitsOnly(rule, PublicationActs(m, k, stmts, step))
  {
  }

  lemma {:induction false} WarmActsDo(rule: StepRule, m: string, docs: seq<Warmed>)
    requires forall i :: 0 <= i < |docs| ==> rule(Runs.WarmPublish(m, docs[i].doc, docs[i].items, docs[i].assets, docs[i].now))
    ensures CommitsOnly(rule, WarmActs(m, docs))
    decreases |docs|
  {
    hide WrittenStmts, PublicationActs;
    if docs != [] {
      var d := docs[0];
      var stmts, step := WrittenStmts(m, d.doc, d.items, d.assets, true, d.now, d.found), Runs.WarmPublish(m, d.doc, d.items, d.assets, d.now);
      WarmActsDo(rule, m, docs[1..]);
      PublicationDoes(rule, m, d.doc.key, stmts, step);
      CommitsBoth(rule, PublicationActs(m, d.doc.key, stmts, step), WarmActs(m, docs[1..]));
    }
  }

  lemma ProgramDoes(owner: AssetOwner, registry: set<string>, rule: StepRule, w: Writer)
    requires Proper(owner, registry, w) && forall step :: Does(w, step) ==> rule(step)
    ensures CommitsOnly(rule, Program(owner, registry, w))
  {
    hide WrittenStmts, IngestStmts, RemovalStmts, CertificationStmts, WarmActs, CommitsOnly, WorkRead, RefsOwned, Owned, PublicationActs;
    match w
    case Publishing(m, doc, chunks, assets, now, r) =>
      PublicationDoes(rule, m, doc.key, IngestStmts(m, doc, chunks, assets, now, r), Runs.Ingest(m, doc, chunks, assets, now));
    case Repeating(m, doc, chunks, assets, now) =>
      PublicationDoes(rule, m, doc.key, [SeeOutcome(m, doc, false, Unchanged)], Runs.Ingest(m, doc, chunks, assets, now));
    case Cleaning(m, scan, keys, order, seen) =>
      var begin := [LockTx(P.ProfileLock(m))] + Dos([SeeMissing(m, scan, order)]) + DocLocks(keys) + Dos(RemovalStmts(m, scan, order, seen));
      LocksCommitNothing([], keys);
      NoCommits(rule, begin);
      OneCommit(rule, Runs.Cleanup(m, scan, order));
      CommitsBoth(rule, begin, [Commit(Runs.Cleanup(m, scan, order))]);
    case WarmingUp(names, m, docs) =>
      LocksCommitNothing(names, []);
      NoCommits(rule, SessionLocks(names));
      NoCommits(rule, SessionUnlocks(names));
      var a, b, c := SessionLocks(names) + StatusActs(m, Status.Warming), WarmActs(m, docs), StatusActs(m, Status.Ready);
      StatusDoes(rule, m, Status.Warming);
      StatusDoes(rule, m, Status.Ready);
      WarmActsDo(rule, m, docs);
      CommitsBoth(rule, SessionLocks(names), StatusActs(m, Status.Warming));
      CommitsBoth(rule, a, b);
      CommitsBoth(rule, a + b, c);
      CommitsBoth(rule, a + b + c, SessionUnlocks(names));
    case Reconciling(names, work, clean, now, rs) =>
      LocksCommitNothing(names, []);
      NoCommits(rule, SessionUnlocks(names));
      var a, b := [Do(PutReady(false))], [Commit(Runs.Suspend)];
      var c, d := SessionLocks(names) + Dos(CertificationStmts(work, clean, now, rs)), [Commit(Runs.Certification(work, clean, now))];
      NoCommits(rule, a);
      NoCommits(rule, c);
      OneCommit(rule, Runs.Suspend);
      OneCommit(rule, Runs.Certification(work, clean, now));
      CommitsBoth(rule, a, b);
      CommitsBoth(rule, a + b, c);
      CommitsBoth(rule, a + b + c, d);
      CommitsBoth(rule, a + b + c + d, SessionUnlocks(names));
      assert Program(owner, registry, w) == a + b + c + d + SessionUnlocks(names);
  }

  lemma OneCommit(rule: StepRule, step: Runs.Step)
    requires rule(step)
    ensures CommitsOnly(rule, [Commit(step)])
  {
  }

  lemma StatusDoes(rule: StepRule, m: string, status: Status)
    requires rule(Runs.SetStatus(m, status))
    ensures CommitsOnly(rule, StatusActs(m, status))
  {
  }

  lemma {:induction false} ProgramsDo(owner: AssetOwner, registry: set<string>, rule: StepRule, ws: seq<Writer>)
    requires AllProper(owner, registry, ws) && forall i, step :: 0 <= i < |ws| && Does(ws[i], step) ==> rule(step)
    ensures CommitsOnly(rule, Programs(owner, registry, ws))
    decreases |ws|
  {
    hide Proper, Program, Does, CommitsOnly;
    if ws == [] {
      NoCommits(rule, []);
    } else {
      ProgramsDo(owner, registry, rule, ws[1..]);
      ProgramDoes(owner, registry, rule, ws[0]);
      CommitsBoth(rule, Program(owner, registry, ws[0]), Programs(owner, registry, ws[1..]));
    }
  }

  /** Whatever is committed in a run is a step of one of its writers. */
  lemma CommittedStepsAreTheirs(owner: AssetOwner, db: Db, jobs: seq<seq<Writer>>, moves: seq<Move>, i: nat)
    requires Starts(owner, db, jobs) && CanRun(owner, Start(owner, db, jobs), moves)
    requires i < |After(owner, Start(owner, db, jobs), moves).history|
    ensures DoneBy(jobs, After(owner, Start(owner, db, jobs), moves).history[i].step)
  {
    hide Proper, Program, CanRun, After, Does, AssetsHome, CommitsOnly;
    var s, rule := Start(owner, db, jobs), (step: Runs.Step) => DoneBy(jobs, step);
    forall p | 0 <= p < |s.procs| ensures CommitsOnly(rule, s.procs[p].rest) {
      ProgramsDo(owner, db.profiles.Keys, rule, jobs[p]);
    }
    RunHoldsOnly(owner, rule, s, moves);
  }

  // ---- Main results ------------------------------------------------------------------------------------

  /** The commit is a step of one of the writers and takes one committed state to the next. */
  ghost predicate IsTheirStep(jobs: seq<seq<Writer>>, db: Db, h: seq<Txn>, i: nat)
    requires i < |h|
  {
    && DoneBy(jobs, h[i].step) && InTurn(db, h, i).Some? && InTurn(db, h, i + 1).Some?
    && Stands(SerialRuns.State(db, h, i), h[i].step, h[i].log, SerialRuns.State(db, h, i + 1))
  }

  /** However their statements interleave, and wherever processes fail: each commit is a step of
      one of the writers, which takes one committed state to the next. */
  lemma EveryCommitIsAStep(owner: AssetOwner, db: Db, jobs: seq<seq<Writer>>, moves: seq<Move>)
    requires Starts(owner, db, jobs) && CanRun(owner, Start(owner, db, jobs), moves)
    ensures forall i :: 0 <= i < |After(owner, Start(owner, db, jobs), moves).history| ==>
              IsTheirStep(jobs, db, After(owner, Start(owner, db, jobs), moves).history, i)
    ensures var t := After(owner, Start(owner, db, jobs), moves);
            InTurn(db, t.history, |t.history|) == Some(t.committed)
  {
    hide Starts, CanRun, After, DoneBy, Stands, Inv, InTurn;
    var s := Start(owner, db, jobs);
    var h := After(owner, s, moves).history;
    StartInv(owner, db, jobs);
    SerialRuns.LastState(owner, s, moves);
    forall i | 0 <= i < |h| ensures IsTheirStep(jobs, db, h, i) {
      SerialRuns.CommitsAreSteps(owner, s, moves, i);
      CommittedStepsAreTheirs(owner, db, jobs, moves, i);
    }
  }

  /** Unless a transaction sees `ready` change, what is committed is what the committed steps leave
      one after the other in some order. */
  lemma WritersAreSerial(owner: AssetOwner, db: Db, jobs: seq<seq<Writer>>, moves: seq<Move>) returns (order: seq<Runs.Step>)
    requires Starts(owner, db, jobs) && CanRun(owner, Start(owner, db, jobs), moves)
    requires SerialOrder.Unsplit(owner, Start(owner, db, jobs), moves)
    ensures multiset(order) == multiset(SerialRuns.Steps(After(owner, Start(owner, db, jobs), moves).history))
    ensures After(owner, Start(owner, db, jobs), moves).committed == Runs.Run(db, order)
  {
    hide Starts, CanRun, After, Inv, SerialOrder.Unsplit;
    StartInv(owner, db, jobs);
    order := SerialOrder.UnsplitIsSerial(owner, Start(owner, db, jobs), moves);
  }

  /** A warm publishes each document's own chunks; a reconciliation visits a profile once. */
  ghost predicate AllowedWriter(w: Writer) {
    && (w.WarmingUp? ==> forall i :: 0 <= i < |w.docs| ==> Agreement.ItemsBelong(w.docs[i].items, w.docs[i].doc.key))
    && (w.Reconciling? ==> Runs.DistinctNames(w.work))
  }

  /** What a writer publishes is owned: plain names in ingestion, owned identities in a warm. */
  ghost predicate OwnedWriter(chunks: Runs.Owner, w: Writer) {
    match w
    case Publishing(_, doc, _, _, _, _) => Runs.PlainNames(doc.key)
    case Repeating(_, doc, _, _, _) => Runs.PlainNames(doc.key)
    case WarmingUp(_, _, docs) => forall i :: 0 <= i < |docs| ==> Runs.ItemsSound(chunks, docs[i].items, docs[i].doc.key)
    case _ => true
  }

  lemma TheirStepsAreAllowed(w: Writer, step: Runs.Step)
    requires Does(w, step) && AllowedWriter(w)
    ensures Runs.Allowed(step)
  {
    hide Agreement.ItemsBelong, Runs.DistinctNames;
    if w.Publishing? || w.Repeating? {
      Runs.IngestIsAllowed(w.model, w.doc, w.chunks, w.assets, w.now);
    }
  }

  lemma TheirStepsAreOwned(chunks: Runs.Owner, w: Writer, step: Runs.Step)
    requires Does(w, step) && OwnedWriter(chunks, w)
    ensures Runs.OwnedStep(chunks, step)
  {
    hide Runs.ItemsSound, Runs.PlainNames;
  }

  /** `ready` means agreement in every committed state, statement by statement, exactly when no
      commit lands on another document's row while the catalog is ready and none certifies over
      an empty chunking profile. */
  lemma WritersReadyMeansAgreement(owner: AssetOwner, db: Db, jobs: seq<seq<Writer>>, moves: seq<Move>)
    requires Starts(owner, db, jobs) && CanRun(owner, Start(owner, db, jobs), moves) && Runs.ReadyAgrees(db)
    requires forall p, i :: 0 <= p < |jobs| && 0 <= i < |jobs[p]| ==> AllowedWriter(jobs[p][i])
    ensures var h := After(owner, Start(owner, db, jobs), moves).history;
            && (forall n :: 0 <= n <= |h| ==> InTurn(db, h, n).Some?)
            && ((forall n :: 0 <= n <= |h| ==> Runs.ReadyAgrees(SerialRuns.State(db, h, n)))
                <==> (forall n :: 0 <= n < |h| ==> !Runs.Breaks(SerialRuns.State(db, h, n), h[n].step)))
  {
    hide Starts, CanRun, After, Inv, InTurn, Runs.ReadyAgrees, Runs.Breaks, Runs.Allowed, AllowedWriter, Does;
    var s := Start(owner, db, jobs);
    var h := After(owner, s, moves).history;
    StartInv(owner, db, jobs);
    forall n | 0 <= n < |h| ensures Runs.Allowed(h[n].step) {
      CommittedStepsAreTheirs(owner, db, jobs, moves, n);
      var p, i :| 0 <= p < |jobs| && 0 <= i < |jobs[p]| && Does(jobs[p][i], h[n].step);
      TheirStepsAreAllowed(jobs[p][i], h[n].step);
    }
    SerialRuns.InterleavedReadyMeansAgreement(owner, s, moves);
  }

  /** And where every chunk identity has an owner, it always does: in whatever state any number
      of writers leave the database, a ready catalog agrees with its tables. */
  lemma OwnedWritersKeepAgreement(owner: AssetOwner, chunks: Runs.Owner, db: Db, jobs: seq<seq<Writer>>, moves: seq<Move>)
    requires Starts(owner, db, jobs) && CanRun(owner, Start(owner, db, jobs), moves) && Runs.ReadyAgrees(db)
    requires Runs.GoodOwner(chunks) && Runs.Sound(chunks, db)
    requires forall p, i :: 0 <= p < |jobs| && 0 <= i < |jobs[p]| ==> AllowedWriter(jobs[p][i]) && OwnedWriter(chunks, jobs[p][i])
    ensures Runs.ReadyAgrees(After(owner, Start(owner, db, jobs), moves).committed)
  {
    hide Starts, CanRun, After, Inv, InTurn, Runs.ReadyAgrees, Runs.Allowed, AllowedWriter, OwnedWriter, Does, Runs.OwnedStep, Runs.GoodOwner,
      Runs.Sound;
    var s := Start(owner, db, jobs);
    var h := After(owner, s, moves).history;
    StartInv(owner, db, jobs);
    forall n | 0 <= n < |h| ensures Runs.Allowed(h[n].step) && Runs.OwnedStep(chunks, h[n].step) {
      CommittedStepsAreTheirs(owner, db, jobs, moves, n);
      var p, i :| 0 <= p < |jobs| && 0 <= i < |jobs[p]| && Does(jobs[p][i], h[n].step);
      TheirStepsAreAllowed(jobs[p][i], h[n].step);
      TheirStepsAreOwned(chunks, jobs[p][i], h[n].step);
    }
    SerialRuns.OwnedStatesAgree(owner, chunks, s, moves, |h|);
    SerialRuns.LastState(owner, s, moves);
  }
}
