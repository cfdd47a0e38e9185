/** Rows that several profiles share: every publication has its source row, every asset
    reference has its asset, and every asset lies under its own document — after every run. */
module SharedRows {
  import opened Text
  import opened ChunkIdentity
  import opened Store
  import opened Agreement
  import opened Reconcile
  import opened Runs
  import opened Republication

  /** Asset ids hash the document they belong to, so an id has one owner. */
  type AssetOwner = string -> DocKey

  ghost predicate SharedSound(owner: AssetOwner, db: Db) {
    && (forall m, k :: m in db.profiles && k in db.profiles[m].catalog ==> k in db.sources)
    && (forall a :: a in db.assets ==> db.assets[a].key in db.sources && owner(a) == db.assets[a].key)
    && (forall r :: r in db.refs ==> r.asset in db.assets && owner(r.asset) == r.key)
  }

  ghost predicate Owned(owner: AssetOwner, assets: seq<AssetRecord>, k: DocKey) {
    forall i :: 0 <= i < |assets| ==> owner(assets[i].id) == k
  }

  ghost predicate AssetsAllowed(owner: AssetOwner, step: Step) {
    match step
    case Ingest(_, doc, _, assets, _) => Owned(owner, assets, doc.key)
    case WarmPublish(_, doc, _, assets, _) => Owned(owner, assets, doc.key)
    case _ => true
  }

  // ---- Statement by statement ----------------------------------------------------------

  lemma PublishMetadataKeeps(owner: AssetOwner, db: Db, model: string, doc: Document, time: Option<int>, now: int)
    requires model in db.profiles && SharedSound(owner, db) && doc.key in db.sources
    ensures SharedSound(owner, Store.PublishMetadata(db, model, doc, time, now))
  {
  }

  lemma ReplaceRowsKeeps(owner: AssetOwner, db: Db, model: string, doc: Document, items: seq<Item>, preserve: bool, now: int)
    requires model in db.profiles && SharedSound(owner, db)
    ensures SharedSound(owner, ReplaceRows(db, model, doc, items, preserve, now))
    ensures doc.key in ReplaceRows(db, model, doc, items, preserve, now).sources
  {
    hide ReplacedTable;
    var p := db.profiles[model];
    var d := InsertSource(WithProfile(db, model, p.(table := ReplacedTable(p.table, doc.key, items))), doc, preserve);
    PublishMetadataKeeps(owner, d, model, doc, if preserve then doc.time else Some(now), now);
  }

  lemma {:induction false} InsertAssetsKeeps(owner: AssetOwner, db: Db, model: string, k: DocKey, assets: seq<AssetRecord>)
    requires SharedSound(owner, db) && Owned(owner, assets, k) && k in db.sources
    ensures SharedSound(owner, InsertAssets(db, model, k, assets))
    ensures InsertAssets(db, model, k, assets).sources == db.sources
  {
    if assets != [] {
      InsertAssetsKeeps(owner, db, model, k, assets[..|assets| - 1]);
    }
  }

  lemma DeleteRefsKeeps(owner: AssetOwner, db: Db, model: string, ks: set<DocKey>)
    requires SharedSound(owner, db)
    ensures SharedSound(owner, DeleteRefs(db, model, ks))
  {
  }

  /** Pruning takes a source only when no profile publishes it, and an asset only when no
      profile references it. */
  lemma PruneKeeps(owner: AssetOwner, db: Db, k: DocKey)
    requires SharedSound(owner, db)
    ensures SharedSound(owner, Prune(db, k))
  {
    if db.ready {
      var d := DropOrphanAssets(db, k);
      forall r | r in d.refs ensures r.asset in d.assets {
        assert Referenced(db, r.asset);
      }
      assert SharedSound(owner, d);
      var e := DropOrphanSource(d, k);
      forall m, k' | m in e.profiles && k' in e.profiles[m].catalog ensures k' in e.sources {
        assert k' == k ==> Published(d, k);
      }
    }
  }

  lemma {:induction false} PruneAllKeeps(owner: AssetOwner, db: Db, ks: seq<DocKey>)
    requires SharedSound(owner, db)
    ensures SharedSound(owner, PruneAll(db, ks))
  {
    if ks != [] {
      PruneAllKeeps(owner, db, ks[..|ks| - 1]);
      PruneKeeps(owner, PruneAll(db, ks[..|ks| - 1]), ks[|ks| - 1]);
    }
  }

  lemma ReplaceKeeps(owner: AssetOwner, db: Db, model: string, doc: Document, items: seq<Item>,
                     assets: seq<AssetRecord>, preserve: bool, now: int)
    requires model in db.profiles && SharedSound(owner, db) && Owned(owner, assets, doc.key)
    ensures SharedSound(owner, Replace(db, model, doc, items, assets, preserve, now))
  {
    hide SharedSound, ReplaceRows, Prune;
    if ReplaceOutcome(db, model, doc, preserve) == Written {
      var d := ReplaceRows(db, model, doc, items, preserve, now);
      ReplaceRowsKeeps(owner, db, model, doc, items, preserve, now);
      DeleteRefsKeeps(owner, d, model, {doc.key});
      InsertAssetsKeeps(owner, DeleteRefs(d, model, {doc.key}), model, doc.key, assets);
      PruneKeeps(owner, InsertAssets(DeleteRefs(d, model, {doc.key}), model, doc.key, assets), doc.key);
    }
  }

  lemma CleanupKeeps(owner: AssetOwner, db: Db, model: string, scan: Scan, order: seq<DocKey>)
    requires model in db.profiles && SharedSound(owner, db)
    ensures SharedSound(owner, DeleteMissing(db, model, scan, order))
  {
    var p := db.profiles[model];
    var gone := MissingKeys(p.catalog, scan);
    if gone != {} {
      var d := DeleteRefs(WithProfile(db, model, CleanedProfile(p, scan)), model, gone);
      var e := Bump(d, Scope(scan.workspace, model, scan.chunking));
      assert SharedSound(owner, d);
      assert SharedSound(owner, e);
      PruneAllKeeps(owner, e, order);
    }
  }

  // ---- Certification ---------------------------------------------------------------------

  lemma ApplyGroupKeeps(owner: AssetOwner, db: Db, v: Table, model: string, g: Group, clean: Cleaner, now: int)
    requires model in db.profiles && Member(v, g.first, g.key) && SharedSound(owner, db) && AssetsPresent(db, v, g.key)
    ensures SharedSound(owner, ApplyGroup(db, v, model, g, clean, now))
    ensures ApplyGroup(db, v, model, g, clean, now).assets == db.assets
  {
    hide NewRow, LegacyDocument, AssetIds, PublicChanges, PublishRow, SharedSound, InsertSource, WithTime, WithRoot;
    var doc := WithTime(db, model, WithRoot(db, LegacyDocument(v, g, clean)));
    LegacyKey(db, v, model, g, clean);
    var d := InsertSource(db, doc, true);
    InsertSourceKeeps(owner, db, doc);
    PublishMetadataKeeps(owner, d, model, doc, doc.time, now);
    var e := DeleteRefs(Store.PublishMetadata(d, model, doc, doc.time, now), model, {g.key});
    DeleteRefsKeeps(owner, Store.PublishMetadata(d, model, doc, doc.time, now), model, {g.key});
    AddRefsKeeps(owner, e, model, g.key, AssetIds(v, g.key));
  }

  lemma InsertSourceKeeps(owner: AssetOwner, db: Db, doc: Document)
    requires SharedSound(owner, db)
    ensures var d := InsertSource(db, doc, true);
            SharedSound(owner, d) && doc.key in d.sources && d.profiles == db.profiles && d.assets == db.assets
  {
  }

  lemma LegacyKey(db: Db, v: Table, model: string, g: Group, clean: Cleaner)
    requires model in db.profiles && Member(v, g.first, g.key)
    ensures WithTime(db, model, WithRoot(db, LegacyDocument(v, g, clean))).key == g.key
  {
  }

  lemma AddRefsKeeps(owner: AssetOwner, db: Db, model: string, k: DocKey, ids: set<string>)
    requires SharedSound(owner, db) && forall x :: x in ids ==> x in db.assets && db.assets[x].key == k
    ensures SharedSound(owner, db.(refs := db.refs + set x | x in ids :: Ref(model, k, x)))
  {
  }

  lemma {:induction false} ApplyGroupsKeep(owner: AssetOwner, db: Db, v: Table, model: string, groups: seq<Group>, clean: Cleaner, now: int)
    requires model in db.profiles && Members(v, groups) && SharedSound(owner, db)
    requires forall i :: 0 <= i < |groups| ==> AssetsPresent(db, v, groups[i].key)
    ensures SharedSound(owner, ApplyGroups(db, v, model, groups, clean, now))
    ensures ApplyGroups(db, v, model, groups, clean, now).assets == db.assets
  {
    hide ApplyGroup, SharedSound, AssetIds;
    if groups != [] {
      var n := |groups| - 1;
      ApplyGroupsKeep(owner, db, v, model, groups[..n], clean, now);
      ApplyGroupKeeps(owner, ApplyGroups(db, v, model, groups[..n], clean, now), v, model, groups[n], clean, now);
    }
  }

  lemma DropRowKeeps(owner: AssetOwner, db: Db, model: string, k: DocKey)
    requires model in db.profiles && SharedSound(owner, db)
    ensures SharedSound(owner, DropRow(db, model, k))
  {
  }

  lemma {:induction false} DropRowsKeep(owner: AssetOwner, db: Db, model: string, ks: seq<DocKey>)
    requires model in db.profiles && SharedSound(owner, db)
    ensures SharedSound(owner, DropRows(db, model, ks))
  {
    hide DropRow, SharedSound;
    if ks != [] {
      DropRowsKeep(owner, db, model, ks[..|ks| - 1]);
      DropRowKeeps(owner, DropRows(db, model, ks[..|ks| - 1]), model, ks[|ks| - 1]);
    }
  }

  lemma ReconcileKeeps(owner: AssetOwner, db: Db, model: string, plan: Plan, clean: Cleaner, now: int)
    requires model in db.profiles && PlanFor(db, model, plan) && Certifiable(db, model) && SharedSound(owner, db)
    ensures SharedSound(owner, ReconcileProfile(db, model, plan, clean, now))
  {
    hide View, Rebuilt, Clean, ApplyGroups, DropRows, AssetsPresent;
    var p := db.profiles[model];
    var v := View(db.sources, p.table);
    var d := WithProfile(db, model, p.(table := Rebuilt(db.sources, p.table)));
    assert SharedSound(owner, d);
    PlannedAssets(db, d, model, plan);
    ApplyGroupsKeep(owner, d, v, model, plan.groups, clean, now);
    DropRowsKeep(owner, ReconcileGroups(db, model, plan.groups, clean, now), model, plan.stale);
  }

  lemma PlannedAssets(db: Db, d: Db, model: string, plan: Plan)
    requires model in db.profiles && PlanFor(db, model, plan) && Certifiable(db, model) && d.assets == db.assets
    ensures var v := View(db.sources, db.profiles[model].table);
            forall i :: 0 <= i < |plan.groups| ==> AssetsPresent(d, v, plan.groups[i].key)
  {
    var v := View(db.sources, db.profiles[model].table);
    forall i | 0 <= i < |plan.groups| ensures AssetsPresent(d, v, plan.groups[i].key) {
      GroupKeyIn(plan.groups, i);
      assert AssetsPresent(db, v, plan.groups[i].key);
    }
  }

  lemma {:induction false} GroupKeyIn(groups: seq<Group>, i: nat)
    requires i < |groups|
    ensures groups[i].key in GroupKeySet(groups)
  {
    if i < |groups| - 1 {
      GroupKeyIn(groups[..|groups| - 1], i);
    }
  }

  lemma {:induction false} CertifyKeeps(owner: AssetOwner, db: Db, work: seq<(string, Plan)>, clean: Cleaner, now: int)
    requires SharedSound(owner, db)
    ensures var r := CertifyProfiles(db, work, clean, now);
            r.Some? ==> SharedSound(owner, r.value)
  {
    hide SharedSound, ReconcileProfile, PlanFor, Certifiable;
    if work != [] && CertifyProfiles(db, work, clean, now).Some? {
      var n := |work| - 1;
      CertifyKeeps(owner, db, work[..n], clean, now);
      var d := CertifyProfiles(db, work[..n], clean, now).value;
      if d.profiles[work[n].0].provisioned {
        ReconcileKeeps(owner, d, work[n].0, work[n].1, clean, now);
      }
    }
  }

  // ---- Runs -----------------------------------------------------------------------------------

  lemma StepKeepsShared(owner: AssetOwner, db: Db, step: Step)
    requires SharedSound(owner, db) && AssetsAllowed(owner, step)
    ensures SharedSound(owner, Next(db, step))
  {
    hide Replace, DeleteMissing, CertifyProfiles, IngestItems;
    match step
    case Ingest(m, doc, chunks, assets, now) =>
      if m in db.profiles {
        ReplaceKeeps(owner, db, m, doc, IngestItems(doc, chunks), assets, false, now);
      }
    case Cleanup(m, scan, order) =>
      if m in db.profiles {
        CleanupKeeps(owner, db, m, scan, order);
      }
    case WarmPublish(m, doc, items, assets, now) =>
      if m in db.profiles {
        ReplaceKeeps(owner, db, m, doc, items, assets, true, now);
      }
    case SetStatus(m, status) =>
    case Register(m) =>
    case Suspend =>
    case Certification(work, clean, now) =>
      CertifyKeeps(owner, db, work, clean, now);
  }

  /** After every run, each publication has its source row and each reference its asset. */
  lemma {:induction false} SharedRowsStay(owner: AssetOwner, db: Db, steps: seq<Step>)
    requires SharedSound(owner, db) && forall i :: 0 <= i < |steps| ==> AssetsAllowed(owner, steps[i])
    ensures SharedSound(owner, Run(db, steps))
  {
    hide SharedSound, Next;
    if steps != [] {
      SharedRowsStay(owner, db, steps[..|steps| - 1]);
      StepKeepsShared(owner, Run(db, steps[..|steps| - 1]), steps[|steps| - 1]);
    }
  }
}
