/** Every step has its transaction: in whatever state a writer finds the database, its reads
    return something, and with what they return its statements do what the step does. */
module StepStatements {
  import opened Text
  import opened ChunkIdentity
  import opened Store
  import opened Reconcile
  import opened SharedRows
  import opened Cells
  import opened Statements
  import opened Rights
  import opened Interleaving
  import opened Transactions
  import opened SerialWriters
  import opened ConcurrentWriters
  import Runs

  /** The statements of a step, whatever its reads return. */
  ghost predicate Transacts(step: Runs.Step, log: seq<Stmt>) {
    match step
    case Ingest(m, doc, chunks, assets, now) =>
      log == [SeeOutcome(m, doc, false, Unchanged)] || exists r :: log == IngestStmts(m, doc, chunks, assets, now, r)
    case Cleanup(m, scan, order) => exists seen :: |seen| == |order| && log == CleanupStmts(m, scan, order, seen)
    case WarmPublish(m, doc, items, assets, now) => exists r :: log == WrittenStmts(m, doc, items, assets, true, now, r)
    case SetStatus(m, status) => log == [PutStatus(m, status)]
    case Suspend => log == [PutReady(false)]
    case Certification(work, clean, now) => exists rs :: WorkRead(work, rs) && log == CertificationStmts(work, clean, now, rs)
    case Register(_) => false
  }

  lemma TransactsStands(owner: AssetOwner, step: Runs.Step, log: seq<Stmt>)
    requires Transacts(step, log)
    ensures StandsFor(owner, step, log)
  {
    hide StandsFor, IngestStmts, CleanupStmts, WrittenStmts, CertificationStmts, WorkRead;
    match step
    case Ingest(m, doc, chunks, assets, now) =>
      if log == [SeeOutcome(m, doc, false, Unchanged)] {
        UnchangedStands(owner, m, doc, chunks, assets, now);
      } else {
        var r :| log == IngestStmts(m, doc, chunks, assets, now, r);
        IngestStands(owner, m, doc, chunks, assets, now, r);
      }
    case Cleanup(m, scan, order) =>
      var seen :| |seen| == |order| && log == CleanupStmts(m, scan, order, seen);
      CleanupStands(owner, m, scan, order, seen);
    case WarmPublish(m, doc, items, assets, now) =>
      var r :| log == WrittenStmts(m, doc, items, assets, true, now, r);
      WarmPublishStands(owner, m, doc, items, assets, now, r);
    case SetStatus(m, status) => SetStatusStands(owner, m, status);
    case Suspend => SuspendStands(owner);
    case Certification(work, clean, now) =>
      var rs :| WorkRead(work, rs) && log == CertificationStmts(work, clean, now, rs);
      CertificationStands(owner, work, clean, now, rs);
  }

  /** The step is neither refused nor rolled back. */
  ghost predicate TakesEffect(db: Db, step: Runs.Step) {
    match step
    case Ingest(m, doc, _, _, _) => m in db.profiles && ReplaceOutcome(db, m, doc, false) != NotReady
    case Cleanup(m, scan, order) => m in db.profiles && Enumerates(order, MissingKeys(db.profiles[m].catalog, scan))
    case WarmPublish(m, _, _, _, _) => m in db.profiles
    case SetStatus(m, _) => m in db.profiles
    case Suspend => true
    case Certification(work, clean, now) => Runs.CertifyProfiles(db, work, clean, now).Some? && Runs.WorkNames(work) == db.profiles.Keys
    case Register(_) => false
  }

  // ---- A publication ---------------------------------------------------------------------------------

  lemma {:induction false} ChunksLookAtNothing(m: string, items: seq<Item>)
    ensures SetsOnly(PutChunks(m, items))
  {
    if items != [] {
      ChunksLookAtNothing(m, items[..|items| - 1]);
    }
  }

  lemma {:induction false} AssetsLookAtNothing(m: string, k: DocKey, assets: seq<AssetRecord>)
    ensures SetsOnly(AssetStmts(m, k, assets))
  {
    if assets != [] {
      AssetsLookAtNothing(m, k, assets[..|assets| - 1]);
    }
  }

  lemma LookingAtNothing(stmts: seq<Stmt>, ready: bool)
    requires SetsOnly(stmts)
    ensures SawOnly(stmts, ready)
  {
  }

  lemma WrittenLooks(m: string, doc: Document, items: seq<Item>, assets: seq<AssetRecord>, preserve: bool, now: int, r: Reads)
    ensures SawOnly(WrittenStmts(m, doc, items, assets, preserve, now, r), r.ready)
  {
    hide PutChunks, AssetStmts;
    var time := if preserve then doc.time else Some(now);
    var begin := [DeleteChunks(m, {doc.key}), PutSource(doc, preserve)];
    var meta, drop, prune := MetadataStmts(m, doc, time, now, r.row, r.changes), [DropRefs(m, doc.key)], PruneStmts(doc.key, r.ready);
    ChunksLookAtNothing(m, items);
    AssetsLookAtNothing(m, doc.key, assets);
    LookingAtNothing(PutChunks(m, items), r.ready);
    LookingAtNothing(AssetStmts(m, doc.key, assets), r.ready);
    SawPart(begin, PutChunks(m, items), r.ready);
    SawPart(begin + PutChunks(m, items), meta, r.ready);
    SawPart(begin + PutChunks(m, items) + meta, drop, r.ready);
    SawPart(begin + PutChunks(m, items) + meta + drop, AssetStmts(m, doc.key, assets), r.ready);
    SawPart(begin + PutChunks(m, items) + meta + drop + AssetStmts(m, doc.key, assets), prune, r.ready);
  }

  /** What a publication reads. */
  lemma WrittenRuns(db: Db, m: string, doc: Document, items: seq<Item>, assets: seq<AssetRecord>, preserve: bool, now: int) returns (r: Reads)
    requires m in db.profiles
    ensures SawOnly(WrittenStmts(m, doc, items, assets, preserve, now, r), db.ready)
    ensures Replay(db, WrittenStmts(m, doc, items, assets, preserve, now, r)) == Some(ReplaceWritten(db, m, doc, items, assets, preserve, now))
  {
    hide ReplaceWritten, WrittenStmts, RowStmts, NewRow, PublicChanges, ChunksReplaced;
    var d := ChunksReplaced(db, m, doc, items, preserve);
    RowsAre(db, m, doc, items, preserve, now);
    var row := NewRow(d.profiles[m].table, doc, if preserve then doc.time else Some(now), now);
    r := Reads(row, PublicChanges(d.profiles[m].catalog, doc.key, row), db.ready);
    RowsReplayed(db, m, doc, items, preserve, now, r);
    WrittenReplayed(db, m, doc, items, assets, preserve, now, r);
    WrittenLooks(m, doc, items, assets, preserve, now, r);
  }

  lemma IngestRuns(db: Db, step: Runs.Step) returns (log: seq<Stmt>)
    requires step.Ingest? && TakesEffect(db, step)
    ensures Transacts(step, log) && SawOnly(log, db.ready) && Replay(db, log) == Some(Runs.Next(db, step))
  {
    hide ReplaceWritten, WrittenStmts, ReplaceOutcome, Replay;
    var m, doc, items := step.model, step.doc, Runs.IngestItems(step.doc, step.chunks);
    var outcome := ReplaceOutcome(db, m, doc, false);
    var look := [SeeOutcome(m, doc, false, outcome)];
    if outcome == Unchanged {
      log := look;
      GuardPassed(db, m, doc, outcome, []);
      assert look + [] == look;
      ReplayNothing(db);
    } else {
      var r := WrittenRuns(db, m, doc, items, step.assets, false, step.now);
      log := IngestStmts(m, doc, step.chunks, step.assets, step.now, r);
      GuardPassed(db, m, doc, outcome, WrittenStmts(m, doc, items, step.assets, false, step.now, r));
      SawPart(look, WrittenStmts(m, doc, items, step.assets, false, step.now, r), db.ready);
    }
  }

  lemma ReplayNothing(db: Db)
    ensures Replay(db, []) == Some(db)
  {
  }

  // ---- Cleanup -------------------------------------------------------------------------------------------

  lemma {:induction false} PrunesLook(order: seq<DocKey>, seen: seq<bool>, ready: bool)
    requires |order| == |seen| && forall i :: 0 <= i < |seen| ==> seen[i] == ready
    ensures SawOnly(PruneEach(order, seen), ready)
  {
    if order != [] {
      var n := |order| - 1;
      PrunesLook(order[..n], seen[..n], ready);
      SawPart(PruneEach(order[..n], seen[..n]), PruneStmts(order[n], seen[n]), ready);
    }
  }

  lemma CleanupRuns(db: Db, step: Runs.Step) returns (log: seq<Stmt>)
    requires step.Cleanup? && TakesEffect(db, step)
    ensures Transacts(step, log) && SawOnly(log, db.ready) && Replay(db, log) == Some(Runs.Next(db, step))
  {
    hide DeleteMissing, MissingKeys, Enumerates, PruneEach, Replay;
    var m, scan, order := step.model, step.scan, step.order;
    var seen := seq(|order|, _ => db.ready);
    log := CleanupStmts(m, scan, order, seen);
    CleanupReplayed(db, m, scan, order, seen);
    PrunesLook(order, seen, db.ready);
    if order != [] {
      var ks := set k | k in order;
      var three := [DeleteChunks(m, ks), DropPublications(m, ks), RaiseRevision(Scope(scan.workspace, m, scan.chunking))];
      SawPart(three, PruneEach(order, seen), db.ready);
      SawPart([SeeMissing(m, scan, order)], three + PruneEach(order, seen), db.ready);
    }
  }

  // ---- Certification --------------------------------------------------------------------------------------

  lemma {:induction false} ListedIn(s: set<string>) returns (ids: seq<string>)
    ensures (set i | i in ids) == s
  {
    if s == {} {
      ids := [];
    } else {
      var i :| i in s;
      var rest := ListedIn(s - {i});
      ids := rest + [i];
      assert forall j :: j in ids <==> j in rest || j == i;
      assert forall j :: j in s <==> j in s - {i} || j == i;
    }
  }

  lemma {:induction false} GroupsRun(db: Db, m: string, v: Table, groups: seq<Group>, clean: Cleaner, now: int) returns (rs: seq<GroupReads>)
    requires m in db.profiles && Members(v, groups)
    ensures GroupsRead(v, groups, rs)
    ensures Replay(db, GroupsStmts(m, v, groups, clean, now, rs)) == Some(ApplyGroups(db, v, m, groups, clean, now))
  {
    hide GroupStmts, ApplyGroup, AssetIds, LegacyDocument, NewRow, PublicChanges, WithTime, WithRoot, Member;
    if groups == [] {
      rs := [];
    } else {
      var n := |groups| - 1;
      var g := groups[n];
      var before := GroupsRun(db, m, v, groups[..n], clean, now);
      var d := ApplyGroups(db, v, m, groups[..n], clean, now);
      var ids := ListedIn(AssetIds(v, g.key));
      var doc := WithTime(d, m, WithRoot(d, LegacyDocument(v, g, clean)));
      SourceApart(d, doc, true);
      var row := NewRow(d.profiles[m].table, doc, doc.time, now);
      var r := GroupReads(doc, row, PublicChanges(d.profiles[m].catalog, doc.key, row), ids);
      rs := before + [r];
      assert rs[..n] == before;
      GroupReplayed(d, m, v, g, clean, now, r);
      ReplayBoth(db, GroupsStmts(m, v, groups[..n], clean, now, before), GroupStmts(m, v, g, clean, now, r));
    }
  }

  lemma ItemRuns(owner: AssetOwner, db: Db, w: (string, Plan), clean: Cleaner, now: int) returns (r: ProfileReads)
    requires Runs.CertifyProfile(db, w.0, w.1, clean, now).Some? && AssetsHome(owner, db)
    ensures r.Storage? ==> GroupsRead(r.v, w.1.groups, r.groups) && RefsOwned(owner, w.1.groups, r.groups)
    ensures Replay(db, ItemStmts(w, clean, now, r)) == Runs.CertifyProfile(db, w.0, w.1, clean, now)
  {
    hide ReconcileProfile, PlanFor, Certifiable, GroupsRead, Replay, ProfileStmts, RefsOwned, AssetsHome, View;
    var (m, plan) := w;
    var p := db.profiles[m];
    if p.provisioned {
      r := StorageRuns(db, m, plan, clean, now);
      FoundAreOwned(owner, db, m, plan, r.groups);
      ItemReplayed(db, w, clean, now, r);
    } else {
      r := NoStorage;
      ReplayOne(db, SeeUnprovisioned(m));
    }
  }

  lemma StorageRuns(db: Db, m: string, plan: Plan, clean: Cleaner, now: int) returns (r: ProfileReads)
    requires m in db.profiles && db.profiles[m].provisioned && PlanFor(db, m, plan) && Certifiable(db, m)
    ensures r.Storage? && r.v == View(db.sources, db.profiles[m].table) && GroupsRead(r.v, plan.groups, r.groups)
    ensures Replay(db, ProfileStmts(m, plan, r.v, clean, now, r.groups)).Some?
  {
    hide GroupsStmts, DropStmts, ApplyGroups, DropRows, Certifiable, View, Rebuilt, GroupsRead, Members;
    var p := db.profiles[m];
    var v := View(db.sources, p.table);
    assert Members(v, plan.groups);
    hide PlanFor;
    var d := WithProfile(db, m, p.(table := Rebuilt(db.sources, p.table)));
    var rs := GroupsRun(d, m, v, plan.groups, clean, now);
    r := Storage(v, rs);
    assert |rs| == |plan.groups| by {
      GroupsReadLength(v, plan.groups, rs);
    }
    var look, back := SeePlan(m, plan, v), WriteBack(m);
    var groups, drops := GroupsStmts(m, v, plan.groups, clean, now, rs), DropStmts(m, plan.stale);
    ReplayBoth(db, [look, back] + groups, drops);
    ReplayBoth(db, [look, back], groups);
    assert [look, back] == [look] + [back];
    ReplayBoth(db, [look], [back]);
    ReplayOne(db, look);
    SawPlan(db, m, plan, v);
    ReplayOne(db, back);
    assert Redone(db, back) == Some(d);
    DropsReplayed(ApplyGroups(d, v, m, plan.groups, clean, now), m, plan.stale);
  }

  lemma GroupsReadLength(v: Table, groups: seq<Group>, rs: seq<GroupReads>)
    requires GroupsRead(v, groups, rs)
    ensures |rs| == |groups|
  {
  }

  /** The analysis has found the assets under their documents, so the references are owned. */
  lemma FoundAreOwned(owner: AssetOwner, db: Db, m: string, plan: Plan, rs: seq<GroupReads>)
    requires AssetsHome(owner, db) && m in db.profiles && PlanFor(db, m, plan) && Certifiable(db, m)
    requires GroupsRead(View(db.sources, db.profiles[m].table), plan.groups, rs)
    ensures RefsOwned(owner, plan.groups, rs)
  {
    hide View, AssetIds, Clean, Member, GroupKeys;
    var v := View(db.sources, db.profiles[m].table);
    forall i, a | 0 <= i < |rs| && a in rs[i].ids ensures owner(a) == plan.groups[i].key {
      assert a in (set x | x in rs[i].ids);
      KeyAmong(plan.groups, i);
      assert AssetsPresent(db, v, plan.groups[i].key);
    }
  }

  lemma {:induction false} KeyAmong(groups: seq<Group>, i: nat)
    requires i < |groups|
    ensures groups[i].key in GroupKeySet(groups)
  {
    var n := |groups| - 1;
    if i < n {
      KeyAmong(groups[..n], i);
    }
  }

  lemma OneMoreRead(owner: AssetOwner, work: seq<(string, Plan)>, before: seq<ProfileReads>, r: ProfileReads)
    requires work != [] && WorkRead(work[..|work| - 1], before) && AllOwned(owner, work[..|work| - 1], before)
    requires r.Storage? ==> GroupsRead(r.v, work[|work| - 1].1.groups, r.groups) && RefsOwned(owner, work[|work| - 1].1.groups, r.groups)
    ensures |before| == |work| - 1 && (before + [r])[..|work| - 1] == before
    ensures WorkRead(work, before + [r]) && AllOwned(owner, work, before + [r])
  {
    hide GroupsRead, RefsOwned;
  }

  lemma {:induction false} WorkRuns(owner: AssetOwner, db: Db, work: seq<(string, Plan)>, clean: Cleaner, now: int) returns (rs: seq<ProfileReads>)
    requires Runs.CertifyProfiles(db, work, clean, now).Some? && AssetsHome(owner, db)
    requires forall i :: 0 <= i < |work| ==> work[i].0 in db.profiles
    ensures WorkRead(work, rs) && Replay(db, WorkStmts(work, clean, now, rs)) == Runs.CertifyProfiles(db, work, clean, now)
    ensures AllOwned(owner, work, rs)
  {
    hide ItemStmts, GroupsRead, Runs.CertifyProfile, AssetsHome, RefsOwned, AllOwned, Replay, WorkRead, AllRepairing, AllKeepHome, CellsOf;
    if work == [] {
      rs := [];
      NothingRead(owner, db);
    } else {
      var n := |work| - 1;
      var before := WorkRuns(owner, db, work[..n], clean, now);
      var d := Runs.CertifyProfiles(db, work[..n], clean, now).value;
      WorkRepairing(owner, db.profiles.Keys, work[..n], clean, now, before);
      RepairingKeepsHome(owner, db.profiles.Keys, WorkStmts(work[..n], clean, now, before));
      ReplayFrame(owner, db, WorkStmts(work[..n], clean, now, before));
      var r := ItemRuns(owner, d, work[n], clean, now);
      rs := before + [r];
      OneMoreRead(owner, work, before, r);
      ReplayBoth(db, WorkStmts(work[..n], clean, now, before), ItemStmts(work[n], clean, now, r));
    }
  }

  lemma NothingRead(owner: AssetOwner, db: Db)
    ensures WorkRead([], []) && AllOwned(owner, [], []) && Replay(db, []) == Some(db)
  {
  }

  lemma RepairingKeepsHome(owner: AssetOwner, registry: set<string>, stmts: seq<Stmt>)
    requires AllRepairing(owner, registry, stmts)
    ensures AllKeepHome(owner, stmts) && SetsOnly(stmts)
  {
    assert forall i :: 0 <= i < |stmts| ==> Repairing(owner, registry, stmts[i]);
    hide KeepsHome;
  }

  lemma CertificationRuns(owner: AssetOwner, db: Db, step: Runs.Step) returns (log: seq<Stmt>)
    requires step.Certification? && TakesEffect(db, step) && AssetsHome(owner, db)
    ensures Transacts(step, log) && SawOnly(log, db.ready) && Replay(db, log) == Some(Runs.Next(db, step))
  {
    hide WorkStmts, AssetsHome, Replay, Runs.CertifyProfiles, WorkRead, AllRepairing, RefsOwned;
    var work, clean, now := step.work, step.clean, step.now;
    forall i | 0 <= i < |work| ensures work[i].0 in db.profiles {
      assert work[i].0 in Runs.WorkNames(work);
    }
    var rs := WorkRuns(owner, db, work, clean, now);
    var look, body, put := [SeeRegistry(Runs.WorkNames(work))], WorkStmts(work, clean, now, rs), [PutReady(true)];
    log := CertificationStmts(work, clean, now, rs);
    WorkRepairing(owner, db.profiles.Keys, work, clean, now, rs);
    RepairingKeepsHome(owner, db.profiles.Keys, body);
    LookingAtNothing(body, db.ready);
    SawPart(look, body, db.ready);
    SawPart(look + body, put, db.ready);
    ReplayBoth(db, look + body, put);
    ReplayBoth(db, look, body);
    ReplayOne(db, look[0]);
    var d := Replay(db, body).value;
    ReplayOne(d, put[0]);
    assert Redone(d, put[0]) == Some(d.(ready := true));
  }

  /** Every step that takes effect is what its statements do, with reads that return what is
      there. */
  lemma EveryStepHasStatements(owner: AssetOwner, db: Db, step: Runs.Step) returns (log: seq<Stmt>)
    requires AssetsHome(owner, db) && TakesEffect(db, step)
    ensures Transacts(step, log) && StandsFor(owner, step, log)
    ensures SawOnly(log, db.ready) && Replay(db, log) == Some(Runs.Next(db, step))
  {
    hide AssetsHome, StandsFor, Transacts, Runs.CertifyProfiles, Replace;
    match step {
      case Ingest(_, _, _, _, _) => log := IngestRuns(db, step);
      case Cleanup(_, _, _) => log := CleanupRuns(db, step);
      case WarmPublish(m, doc, items, assets, now) =>
        var r := WrittenRuns(db, m, doc, items, assets, true, now);
        log := WrittenStmts(m, doc, items, assets, true, now, r);
        WarmNext(db, m, doc, items, assets, now, r);
      case SetStatus(m, status) => log := OneStatement(db, step, PutStatus(m, status));
      case Suspend => log := OneStatement(db, step, PutReady(false));
      case Certification(_, _, _) => log := CertificationRuns(owner, db, step);
    }
    TransactsStands(owner, step, log);
  }

  lemma WarmNext(db: Db, m: string, doc: Document, items: seq<Item>, assets: seq<AssetRecord>, now: int, r: Reads)
    requires m in db.profiles
    ensures Runs.Next(db, Runs.WarmPublish(m, doc, items, assets, now)) == ReplaceWritten(db, m, doc, items, assets, true, now)
    ensures Transacts(Runs.WarmPublish(m, doc, items, assets, now), WrittenStmts(m, doc, items, assets, true, now, r))
  {
    hide WrittenStmts, ReplaceWritten;
  }

  lemma OneStatement(db: Db, step: Runs.Step, st: Stmt) returns (log: seq<Stmt>)
    requires TakesEffect(db, step)
    requires (step.SetStatus? && st == PutStatus(step.model, step.status)) || (step.Suspend? && st == PutReady(false))
    ensures Transacts(step, log) && SawOnly(log, db.ready) && Replay(db, log) == Some(Runs.Next(db, step))
  {
    log := [st];
    ReplayOne(db, st);
  }
}
