/** The statements of the writers, one by one: what each does to a database, which cells it
    looks at and which it may change. */
module Statements {
  import opened Text
  import opened ChunkIdentity
  import opened Store
  import opened Reconcile
  import opened SharedRows
  import opened Cells

  /** Reads are written as what they return: a program whose reads return something else is
      another program. */
  datatype Stmt =
    | SeeOutcome(model: string, doc: Document, preserve: bool, outcome: Outcome)
    | DeleteChunks(model: string, keys: set<DocKey>)
    | PutChunk(model: string, item: Item)
    | PutSource(doc: Document, keep: bool)
    | SeeCount(model: string, doc: Document, time: Option<int>, now: int, row: CatalogRow)
    | SeePublic(model: string, key: DocKey, row: CatalogRow, changes: bool)
    | PutCatalog(model: string, key: DocKey, row: CatalogRow)
    | RaiseRevision(scope: Scope)
    | DropRefs(model: string, key: DocKey)
    | AddAsset(key: DocKey, asset: AssetRecord)
    | AddRef(r: Ref)
    | SeeReady(ready: bool)
    | PruneAssets(key: DocKey)
    | PruneSource(key: DocKey)
    | SeeMissing(model: string, scan: Scan, order: seq<DocKey>)
    | DropPublications(model: string, keys: set<DocKey>)
    | PutStatus(model: string, status: Status)
    | PutReady(ready: bool)
    | SeeRegistry(names: set<string>)
    | SeeUnprovisioned(model: string)
    | SeePlan(model: string, plan: Plan, v: Table)
    | WriteBack(model: string)
    | SeeDocument(model: string, legacy: Document, doc: Document)

  /** The profile a statement is about, if any. */
  function ModelOf(st: Stmt): Option<string> {
    match st
    case PutSource(_, _) => None
    case RaiseRevision(_) => None
    case AddAsset(_, _) => None
    case AddRef(_) => None
    case SeeReady(_) => None
    case PruneAssets(_) => None
    case PruneSource(_) => None
    case PutReady(_) => None
    case SeeRegistry(_) => None
    case _ => Some(st.model)
  }

  /** What a read has to return. */
  predicate Holds(db: Db, st: Stmt)
    requires ModelOf(st).Some? ==> st.model in db.profiles
  {
    match st
    case SeeOutcome(m, doc, preserve, outcome) => ReplaceOutcome(db, m, doc, preserve) == outcome
    case SeeCount(m, doc, time, now, row) => NewRow(db.profiles[m].table, doc, time, now) == row
    case SeePublic(m, k, row, changes) => PublicChanges(db.profiles[m].catalog, k, row) == changes
    case SeeReady(b) => db.ready == b
    case SeeMissing(m, scan, order) => Enumerates(order, MissingKeys(db.profiles[m].catalog, scan))
    case SeeRegistry(names) => db.profiles.Keys == names
    case SeeUnprovisioned(m) => !db.profiles[m].provisioned && db.profiles[m].status != Status.Ready
    case SeePlan(m, plan, v) =>
      db.profiles[m].provisioned && View(db.sources, db.profiles[m].table) == v && PlanFor(db, m, plan) && Certifiable(db, m)
    case SeeDocument(m, legacy, doc) => WithTime(db, m, WithRoot(db, legacy)) == doc
    case _ => true
  }

  predicate ChangesProfile(st: Stmt) {
    st.DeleteChunks? || st.PutChunk? || st.PutCatalog? || st.PutStatus? || st.WriteBack?
  }

  /** What becomes of the profile a statement changes. */
  function Changed(p: Profile, sources: map<DocKey, Source>, st: Stmt): Profile
    requires ChangesProfile(st)
  {
    match st
    case DeleteChunks(_, ks) => p.(table := DeleteGroups(p.table, ks))
    case PutChunk(_, item) => p.(table := p.table[ItemId(item) := ItemRow(item)])
    case PutCatalog(_, k, row) => p.(catalog := PublishRow(p.catalog, k, row))
    case PutStatus(_, status) => p.(status := status)
    case WriteBack(_) => p.(table := Rebuilt(sources, p.table))
  }

  predicate ChangesShared(st: Stmt) {
    || st.PutSource? || st.RaiseRevision? || st.DropRefs? || st.AddAsset? || st.AddRef? || st.PruneAssets? || st.PruneSource?
    || st.PutReady? || st.DropPublications?
  }

  function ChangedDb(db: Db, st: Stmt): Db
    requires ChangesShared(st) && (ModelOf(st).Some? ==> st.model in db.profiles)
  {
    match st
    case PutSource(doc, keep) => InsertSource(db, doc, keep)
    case RaiseRevision(scope) => Bump(db, scope)
    case DropRefs(m, k) => DeleteRefs(db, m, {k})
    case AddAsset(k, a) => db.(assets := if a.id in db.assets then db.assets else db.assets[a.id := Asset(k, a.info)])
    case AddRef(r) => db.(refs := db.refs + {r})
    case PruneAssets(k) => DropOrphanAssets(db, k)
    case PruneSource(k) => DropOrphanSource(db, k)
    case PutReady(b) => db.(ready := b)
    case DropPublications(m, ks) =>
      DeleteRefs(WithProfile(db, m, db.profiles[m].(catalog := db.profiles[m].catalog - ks)), m, ks)
  }

  /** What a statement makes of what it sees; none if a read returns something else. */
  function Effect(db: Db, st: Stmt): Option<Db> {
    if (ModelOf(st).Some? && st.model !in db.profiles) || !Holds(db, st) then None
    else if ChangesProfile(st) then Some(WithProfile(db, st.model, Changed(db.profiles[st.model], db.sources, st)))
    else if ChangesShared(st) then Some(ChangedDb(db, st))
    else Some(db)
  }

  // ---- Footprints ---------------------------------------------------------------------------

  /** Cells on which a statement's effect depends.  What a pruning sees of `ready` is a read of
      its own and not under any lock. */
  ghost predicate Touches(owner: AssetOwner, st: Stmt, x: Cell) {
    match st
    case SeeOutcome(m, doc, _, _) => x == StatusAt(m) || x == CatalogAt(m, doc.key)
    case DeleteChunks(m, _) => x.ChunkAt? && x.model == m
    case PutChunk(m, item) => x == ChunkAt(m, ItemId(item))
    case PutSource(doc, _) => x == SourceAt(doc.key)
    case SeeCount(m, _, _, _, _) => x.ChunkAt? && x.model == m
    case SeePublic(m, k, _, _) => x == CatalogAt(m, k)
    case PutCatalog(m, k, _) => x == CatalogAt(m, k)
    case RaiseRevision(scope) => x == RevisionAt(scope)
    case DropRefs(m, k) => x.RefAt? && x.r.model == m && x.r.key == k
    case AddAsset(_, a) => x == AssetAt(a.id)
    case AddRef(r) => x == RefAt(r)
    case SeeReady(_) => false
    case PruneAssets(k) => (x.AssetAt? && owner(x.asset) == k) || (x.RefAt? && x.r.key == k)
    case PruneSource(k) =>
      || (x.CatalogAt? && x.key == k) || x == SourceAt(k) || (x.AssetAt? && owner(x.asset) == k) || (x.RefAt? && x.r.key == k)
    case SeeMissing(m, _, _) => x.CatalogAt? && x.model == m
    case DropPublications(m, ks) =>
      (x.CatalogAt? && x.model == m && x.key in ks) || (x.RefAt? && x.r.model == m && x.r.key in ks)
    case PutStatus(m, _) => x == StatusAt(m)
    case PutReady(_) => false
    case SeeRegistry(_) => false
    case SeeUnprovisioned(m) => x == StatusAt(m)
    case SeePlan(m, _, _) => x.SourceAt? || x.AssetAt? || ((x.ChunkAt? || x.CatalogAt?) && x.model == m)
    case WriteBack(m) => x.SourceAt? || (x.ChunkAt? && x.model == m)
    case SeeDocument(m, legacy, _) => x == SourceAt(legacy.key) || x == CatalogAt(m, legacy.key)
  }

  /** Cells a statement may change. */
  ghost predicate Writes(owner: AssetOwner, st: Stmt, x: Cell) {
    if st.PutReady? then x == ReadyAt
    else
      && (ChangesProfile(st) || ChangesShared(st)) && Touches(owner, st, x)
      && (st.PruneAssets? ==> x.AssetAt?) && (st.PruneSource? ==> !x.CatalogAt?) && (st.WriteBack? ==> x.ChunkAt?)
  }

  /** Assets and references are filed under the document that owns the asset's id. */
  ghost predicate AssetsHome(owner: AssetOwner, db: Db) {
    && (forall a :: a in db.assets ==> db.assets[a].key == owner(a))
    && (forall r :: r in db.refs ==> r.key == owner(r.asset))
  }

  ghost predicate KeepsHome(owner: AssetOwner, st: Stmt) {
    match st
    case AddAsset(k, a) => owner(a.id) == k
    case AddRef(r) => owner(r.asset) == r.key
    case _ => true
  }

  lemma SharedKeepsShape(owner: AssetOwner, db: Db, st: Stmt)
    requires ChangesShared(st) && (ModelOf(st).Some? ==> st.model in db.profiles) && AssetsHome(owner, db) && KeepsHome(owner, st)
    ensures SameShape(ChangedDb(db, st), db) && AssetsHome(owner, ChangedDb(db, st))
  {
  }

  lemma EffectKeepsShape(owner: AssetOwner, db: Db, st: Stmt)
    requires Effect(db, st).Some? && AssetsHome(owner, db) && KeepsHome(owner, st)
    ensures SameShape(Effect(db, st).value, db) && AssetsHome(owner, Effect(db, st).value)
  {
    hide Holds, ChangedDb;
    if ChangesShared(st) {
      SharedKeepsShape(owner, db, st);
    } else if ChangesProfile(st) {
      ChangedKeepsStorage(db.profiles[st.model], db.sources, st);
    }
  }

  lemma ChangedKeepsStorage(p: Profile, sources: map<DocKey, Source>, st: Stmt)
    requires ChangesProfile(st)
    ensures Changed(p, sources, st).provisioned == p.provisioned
  {
  }

  lemma SharedFrame(owner: AssetOwner, db: Db, st: Stmt, x: Cell)
    requires ChangesShared(st) && (ModelOf(st).Some? ==> st.model in db.profiles) && AssetsHome(owner, db) && KeepsHome(owner, st)
    requires !Writes(owner, st, x)
    ensures Same(x, ChangedDb(db, st), db)
  {
    hide ChangedDb, Same;
    if st.PruneAssets? || st.PruneSource? {
      PruneFrame(owner, db, st, x);
    } else if st.DropRefs? || st.DropPublications? {
      DropFrame(owner, db, st, x);
    } else {
      AddFrame(owner, db, st, x);
    }
  }

  lemma PruneFrame(owner: AssetOwner, db: Db, st: Stmt, x: Cell)
    requires (st.PruneAssets? || st.PruneSource?) && AssetsHome(owner, db) && !Writes(owner, st, x)
    ensures Same(x, ChangedDb(db, st), db)
  {
  }

  lemma DropFrame(owner: AssetOwner, db: Db, st: Stmt, x: Cell)
    requires (st.DropRefs? || st.DropPublications?) && st.model in db.profiles && !Writes(owner, st, x)
    ensures Same(x, ChangedDb(db, st), db)
  {
  }

  lemma AddFrame(owner: AssetOwner, db: Db, st: Stmt, x: Cell)
    requires (st.PutSource? || st.RaiseRevision? || st.AddAsset? || st.AddRef? || st.PutReady?) && !Writes(owner, st, x)
    ensures Same(x, ChangedDb(db, st), db)
  {
  }

  lemma ProfileFrame(owner: AssetOwner, db: Db, st: Stmt, x: Cell)
    requires ChangesProfile(st) && st.model in db.profiles && !Writes(owner, st, x)
    ensures Same(x, WithProfile(db, st.model, Changed(db.profiles[st.model], db.sources, st)), db)
  {
    hide Rebuilt;
  }

  /** A statement changes only what it may. */
  lemma EffectFrame(owner: AssetOwner, db: Db, st: Stmt, x: Cell)
    requires Effect(db, st).Some? && AssetsHome(owner, db) && KeepsHome(owner, st) && !Writes(owner, st, x)
    ensures Same(x, Effect(db, st).value, db)
  {
    hide Holds, ChangedDb, Changed, Writes;
    if ChangesShared(st) {
      SharedFrame(owner, db, st, x);
    } else if ChangesProfile(st) {
      ProfileFrame(owner, db, st, x);
    }
  }

  // ---- Locality -------------------------------------------------------------------------------

  ghost predicate SameTouched(owner: AssetOwner, a: Db, b: Db, st: Stmt) {
    SameShape(a, b) && forall x :: Touches(owner, st, x) ==> Same(x, a, b)
  }

  lemma SameTable(a: Db, b: Db, m: string)
    requires m in a.profiles && m in b.profiles && forall id :: Same(ChunkAt(m, id), a, b)
    ensures a.profiles[m].table == b.profiles[m].table
  {
    forall id ensures SameEntry(id, a.profiles[m].table, b.profiles[m].table) {
      assert Same(ChunkAt(m, id), a, b);
    }
    SameEntries(a.profiles[m].table, b.profiles[m].table);
  }

  lemma SameCatalog(a: Db, b: Db, m: string)
    requires m in a.profiles && m in b.profiles && forall k :: Same(CatalogAt(m, k), a, b)
    ensures a.profiles[m].catalog == b.profiles[m].catalog
  {
    forall k ensures SameEntry(k, a.profiles[m].catalog, b.profiles[m].catalog) {
      assert Same(CatalogAt(m, k), a, b);
    }
    SameEntries(a.profiles[m].catalog, b.profiles[m].catalog);
  }

  lemma SameSources(a: Db, b: Db)
    requires forall k :: Same(SourceAt(k), a, b)
    ensures a.sources == b.sources
  {
    forall k ensures SameEntry(k, a.sources, b.sources) {
      assert Same(SourceAt(k), a, b);
    }
    SameEntries(a.sources, b.sources);
  }

  lemma SameAssets(a: Db, b: Db)
    requires forall i :: Same(AssetAt(i), a, b)
    ensures a.assets == b.assets
  {
    forall i ensures SameEntry(i, a.assets, b.assets) {
      assert Same(AssetAt(i), a, b);
    }
    SameEntries(a.assets, b.assets);
  }

  lemma SameOutcome(a: Db, b: Db, m: string, doc: Document, preserve: bool)
    requires m in a.profiles && m in b.profiles && Same(StatusAt(m), a, b) && Same(CatalogAt(m, doc.key), a, b)
    ensures ReplaceOutcome(a, m, doc, preserve) == ReplaceOutcome(b, m, doc, preserve)
  {
    assert SameEntry(doc.key, a.profiles[m].catalog, b.profiles[m].catalog);
  }

  lemma SamePlan(a: Db, b: Db, m: string, plan: Plan)
    requires SameShape(a, b) && m in a.profiles && a.profiles[m].table == b.profiles[m].table && a.profiles[m].catalog == b.profiles[m].catalog
    requires a.sources == b.sources && a.assets == b.assets
    ensures PlanFor(a, m, plan) <==> PlanFor(b, m, plan)
    ensures Certifiable(a, m) <==> Certifiable(b, m)
  {
    hide Clean, View, GroupKeys, AssetIds;
  }

  lemma SameDocument(a: Db, b: Db, m: string, legacy: Document)
    requires m in a.profiles && m in b.profiles && Same(SourceAt(legacy.key), a, b) && Same(CatalogAt(m, legacy.key), a, b)
    ensures WithTime(a, m, WithRoot(a, legacy)) == WithTime(b, m, WithRoot(b, legacy))
  {
    assert SameEntry(legacy.key, a.sources, b.sources);
    assert SameEntry(legacy.key, a.profiles[m].catalog, b.profiles[m].catalog);
    assert WithRoot(a, legacy).key == legacy.key;
  }

  lemma OutcomeLocal(owner: AssetOwner, a: Db, b: Db, st: Stmt)
    requires SameTouched(owner, a, b, st) && st.SeeOutcome? && st.model in a.profiles
    ensures Holds(a, st) <==> Holds(b, st)
  {
    hide PlanFor, Certifiable, View, NewRow, ReplaceOutcome, MissingKeys, WithTime, WithRoot, Enumerates, PublicChanges, Same;
    assert Touches(owner, st, StatusAt(st.model)) && Touches(owner, st, CatalogAt(st.model, st.doc.key));
    SameOutcome(a, b, st.model, st.doc, st.preserve);
  }

  lemma CountLocal(owner: AssetOwner, a: Db, b: Db, st: Stmt)
    requires SameTouched(owner, a, b, st) && st.SeeCount? && st.model in a.profiles
    ensures Holds(a, st) <==> Holds(b, st)
  {
    hide PlanFor, Certifiable, View, NewRow, ReplaceOutcome, MissingKeys, WithTime, WithRoot, Enumerates, PublicChanges, Same;
    assert forall id :: Touches(owner, st, ChunkAt(st.model, id));
    SameTable(a, b, st.model);
  }

  lemma PublicLocal(owner: AssetOwner, a: Db, b: Db, st: Stmt)
    requires SameTouched(owner, a, b, st) && st.SeePublic? && st.model in a.profiles
    ensures Holds(a, st) <==> Holds(b, st)
  {
    hide PlanFor, Certifiable, View, NewRow, ReplaceOutcome, MissingKeys, WithTime, WithRoot, Enumerates, PublicChanges, Same;
    assert Touches(owner, st, CatalogAt(st.model, st.key));
    SameChange(a, b, st.model, st.key, st.row);
  }

  lemma MissingLocal(owner: AssetOwner, a: Db, b: Db, st: Stmt)
    requires SameTouched(owner, a, b, st) && st.SeeMissing? && st.model in a.profiles
    ensures Holds(a, st) <==> Holds(b, st)
  {
    hide PlanFor, Certifiable, View, NewRow, ReplaceOutcome, MissingKeys, WithTime, WithRoot, Enumerates, PublicChanges, Same;
    assert forall k :: Touches(owner, st, CatalogAt(st.model, k));
    SameCatalog(a, b, st.model);
  }

  lemma UnprovisionedLocal(owner: AssetOwner, a: Db, b: Db, st: Stmt)
    requires SameTouched(owner, a, b, st) && st.SeeUnprovisioned? && st.model in a.profiles
    ensures Holds(a, st) <==> Holds(b, st)
  {
    hide PlanFor, Certifiable, View, NewRow, ReplaceOutcome, MissingKeys, WithTime, WithRoot, Enumerates, PublicChanges, Same;
    assert Touches(owner, st, StatusAt(st.model));
    SameStatus(a, b, st.model);
  }

  lemma PlanLocal(owner: AssetOwner, a: Db, b: Db, st: Stmt)
    requires SameTouched(owner, a, b, st) && st.SeePlan? && st.model in a.profiles
    ensures Holds(a, st) <==> Holds(b, st)
  {
    hide PlanFor, Certifiable, View, NewRow, ReplaceOutcome, MissingKeys, WithTime, WithRoot, Enumerates, PublicChanges, Same;
    var m := st.model;
    assert forall id :: Touches(owner, st, ChunkAt(m, id));
    assert forall k :: Touches(owner, st, CatalogAt(m, k)) && Touches(owner, st, SourceAt(k));
    assert forall i :: Touches(owner, st, AssetAt(i));
    SameTable(a, b, m);
    SameCatalog(a, b, m);
    SameSources(a, b);
    SameAssets(a, b);
    SamePlan(a, b, m, st.plan);
  }

  lemma DocumentLocal(owner: AssetOwner, a: Db, b: Db, st: Stmt)
    requires SameTouched(owner, a, b, st) && st.SeeDocument? && st.model in a.profiles
    ensures Holds(a, st) <==> Holds(b, st)
  {
    hide PlanFor, Certifiable, View, NewRow, ReplaceOutcome, MissingKeys, WithTime, WithRoot, Enumerates, PublicChanges, Same;
    assert Touches(owner, st, SourceAt(st.legacy.key)) && Touches(owner, st, CatalogAt(st.model, st.legacy.key));
    SameDocument(a, b, st.model, st.legacy);
  }

  /** What a read returns depends on the cells it touches. */
  lemma HoldsLocal(owner: AssetOwner, a: Db, b: Db, st: Stmt)
    requires SameTouched(owner, a, b, st) && (ModelOf(st).Some? ==> st.model in a.profiles) && !st.SeeReady?
    ensures Holds(a, st) <==> Holds(b, st)
  {
    hide Holds, Touches, Same;
    if st.SeeOutcome? {
      OutcomeLocal(owner, a, b, st);
    } else if st.SeeCount? {
      CountLocal(owner, a, b, st);
    } else if st.SeePublic? {
      PublicLocal(owner, a, b, st);
    } else if st.SeeMissing? {
      MissingLocal(owner, a, b, st);
    } else if st.SeeUnprovisioned? {
      UnprovisionedLocal(owner, a, b, st);
    } else if st.SeePlan? {
      PlanLocal(owner, a, b, st);
    } else if st.SeeDocument? {
      DocumentLocal(owner, a, b, st);
    } else if st.SeeRegistry? {
      RegistryLocal(a, b, st);
    } else {
      OnlyReadsFail(a, st);
      OnlyReadsFail(b, st);
    }
  }

  lemma RegistryLocal(a: Db, b: Db, st: Stmt)
    requires SameShape(a, b) && st.SeeRegistry?
    ensures Holds(a, st) <==> Holds(b, st)
  {
  }

  lemma OnlyReadsFail(db: Db, st: Stmt)
    requires ModelOf(st).Some? ==> st.model in db.profiles
    requires !st.SeeOutcome? && !st.SeeCount? && !st.SeePublic? && !st.SeeReady? && !st.SeeMissing? && !st.SeeUnprovisioned? && !st.SeePlan? && !st.SeeDocument? && !st.SeeRegistry?
    ensures Holds(db, st)
  {
  }

  lemma SameChange(a: Db, b: Db, m: string, k: DocKey, row: CatalogRow)
    requires m in a.profiles && m in b.profiles && Same(CatalogAt(m, k), a, b)
    ensures PublicChanges(a.profiles[m].catalog, k, row) <==> PublicChanges(b.profiles[m].catalog, k, row)
  {
    assert SameEntry(k, a.profiles[m].catalog, b.profiles[m].catalog);
  }

  lemma SameStatus(a: Db, b: Db, m: string)
    requires m in a.profiles && m in b.profiles && Same(StatusAt(m), a, b)
    ensures a.profiles[m].status == b.profiles[m].status
  {
  }

  /** Statements that work on a whole table. */
  lemma WholeTableLocal(owner: AssetOwner, a: Db, b: Db, st: Stmt)
    requires SameTouched(owner, a, b, st) && (st.DeleteChunks? || st.WriteBack?) && st.model in a.profiles
    ensures Changed(a.profiles[st.model], a.sources, st).table == Changed(b.profiles[st.model], b.sources, st).table
  {
    hide Same, Rebuilt, DeleteGroups;
    assert forall id :: Touches(owner, st, ChunkAt(st.model, id));
    SameTable(a, b, st.model);
    if st.WriteBack? {
      assert forall k :: Touches(owner, st, SourceAt(k));
      SameSources(a, b);
    }
  }

  lemma ProfileLocal(owner: AssetOwner, a: Db, b: Db, st: Stmt, x: Cell)
    requires SameTouched(owner, a, b, st) && ChangesProfile(st) && st.model in a.profiles && Touches(owner, st, x)
    ensures Same(x, WithProfile(a, st.model, Changed(a.profiles[st.model], a.sources, st)),
                 WithProfile(b, st.model, Changed(b.profiles[st.model], b.sources, st)))
  {
    hide Changed, Same;
    if st.DeleteChunks? || st.WriteBack? {
      WholeTableLocal(owner, a, b, st);
      TableLocal(owner, a, b, st, x);
    } else {
      RowLocal(owner, a, b, st, x);
    }
  }

  lemma TableLocal(owner: AssetOwner, a: Db, b: Db, st: Stmt, x: Cell)
    requires (st.DeleteChunks? || st.WriteBack?) && SameShape(a, b) && st.model in a.profiles && Touches(owner, st, x) && Same(x, a, b)
    requires Changed(a.profiles[st.model], a.sources, st).table == Changed(b.profiles[st.model], b.sources, st).table
    ensures Same(x, WithProfile(a, st.model, Changed(a.profiles[st.model], a.sources, st)),
                 WithProfile(b, st.model, Changed(b.profiles[st.model], b.sources, st)))
  {
    hide Changed;
  }

  lemma RowLocal(owner: AssetOwner, a: Db, b: Db, st: Stmt, x: Cell)
    requires (st.PutChunk? || st.PutCatalog? || st.PutStatus?) && SameShape(a, b) && st.model in a.profiles && Touches(owner, st, x) && Same(x, a, b)
    ensures Same(x, WithProfile(a, st.model, Changed(a.profiles[st.model], a.sources, st)),
                 WithProfile(b, st.model, Changed(b.profiles[st.model], b.sources, st)))
  {
    hide SamePublication;
  }

  lemma SharedLocal(owner: AssetOwner, a: Db, b: Db, st: Stmt, x: Cell)
    requires SameTouched(owner, a, b, st) && ChangesShared(st) && (ModelOf(st).Some? ==> st.model in a.profiles)
    requires AssetsHome(owner, a) && AssetsHome(owner, b) && (Touches(owner, st, x) || Writes(owner, st, x))
    ensures Same(x, ChangedDb(a, st), ChangedDb(b, st))
  {
    hide AssetsHome;
    if st.PruneAssets? {
      PruneAssetsLocal(owner, a, b, st, x);
    } else if st.PruneSource? {
      PruneSourceLocal(owner, a, b, st, x);
    } else {
      assert st.PutReady? || Same(x, a, b);
      PlainLocal(owner, a, b, st, x);
    }
  }

  lemma PlainLocal(owner: AssetOwner, a: Db, b: Db, st: Stmt, x: Cell)
    requires ChangesShared(st) && !st.PruneAssets? && !st.PruneSource? && (ModelOf(st).Some? ==> st.model in a.profiles)
    requires SameShape(a, b) && (Touches(owner, st, x) || Writes(owner, st, x)) && (st.PutReady? || Same(x, a, b))
    ensures Same(x, ChangedDb(a, st), ChangedDb(b, st))
  {
    hide ChangedDb, Same;
    WritesAreTouched(owner, st, x);
    if st.DropRefs? || st.DropPublications? {
      DropLocal(owner, a, b, st, x);
    } else if st.PutSource? || st.RaiseRevision? {
      PutLocal(owner, a, b, st, x);
    } else {
      AddLocal(owner, a, b, st, x);
    }
  }

  lemma DropLocal(owner: AssetOwner, a: Db, b: Db, st: Stmt, x: Cell)
    requires (st.DropRefs? || st.DropPublications?) && st.model in a.profiles && SameShape(a, b) && Touches(owner, st, x) && Same(x, a, b)
    ensures Same(x, ChangedDb(a, st), ChangedDb(b, st))
  {
  }

  lemma PutLocal(owner: AssetOwner, a: Db, b: Db, st: Stmt, x: Cell)
    requires (st.PutSource? || st.RaiseRevision?) && SameShape(a, b) && Touches(owner, st, x) && Same(x, a, b)
    ensures Same(x, ChangedDb(a, st), ChangedDb(b, st))
  {
  }

  lemma AddLocal(owner: AssetOwner, a: Db, b: Db, st: Stmt, x: Cell)
    requires (st.AddAsset? || st.AddRef? || st.PutReady?) && SameShape(a, b) && (Touches(owner, st, x) || Writes(owner, st, x))
    requires st.PutReady? || Same(x, a, b)
    ensures Same(x, ChangedDb(a, st), ChangedDb(b, st))
  {
  }

  lemma PruneAssetsLocal(owner: AssetOwner, a: Db, b: Db, st: Stmt, x: Cell)
    requires SameTouched(owner, a, b, st) && st.PruneAssets? && AssetsHome(owner, a) && AssetsHome(owner, b) && Touches(owner, st, x)
    ensures Same(x, DropOrphanAssets(a, st.key), DropOrphanAssets(b, st.key))
  {
    assert Same(x, a, b);
    if x.AssetAt? {
      assert Referenced(a, x.asset) <==> Referenced(b, x.asset) by {
        forall r: Ref | r.asset == x.asset && r.key == st.key ensures r in a.refs <==> r in b.refs {
          assert Same(RefAt(r), a, b);
        }
      }
    }
  }

  lemma PruneSourceLocal(owner: AssetOwner, a: Db, b: Db, st: Stmt, x: Cell)
    requires SameTouched(owner, a, b, st) && st.PruneSource? && AssetsHome(owner, a) && AssetsHome(owner, b) && Touches(owner, st, x)
    ensures Same(x, DropOrphanSource(a, st.key), DropOrphanSource(b, st.key))
  {
    var k := st.key;
    assert Same(x, a, b) && Same(SourceAt(k), a, b);
    assert Published(a, k) <==> Published(b, k) by {
      forall m | m in a.profiles ensures k in a.profiles[m].catalog <==> k in b.profiles[m].catalog {
        assert Same(CatalogAt(m, k), a, b);
      }
    }
    if x.RefAt? {
      assert Touches(owner, st, AssetAt(x.r.asset)) <== x.r in a.refs || x.r in b.refs;
      assert x.r in a.refs ==> Same(AssetAt(x.r.asset), a, b);
    }
  }

  /** A statement does the same wherever the cells it touches hold the same. */
  lemma EffectLocal(owner: AssetOwner, a: Db, b: Db, st: Stmt)
    requires SameTouched(owner, a, b, st) && AssetsHome(owner, a) && AssetsHome(owner, b) && !st.SeeReady? && Effect(a, st).Some?
    ensures Effect(b, st).Some?
    ensures forall x :: Touches(owner, st, x) || Writes(owner, st, x) ==> Same(x, Effect(a, st).value, Effect(b, st).value)
  {
    hide Holds, Changed, ChangedDb, Touches, Writes, Same;
    HoldsLocal(owner, a, b, st);
    forall x | Touches(owner, st, x) || Writes(owner, st, x) ensures Same(x, Effect(a, st).value, Effect(b, st).value) {
      WritesAreTouched(owner, st, x);
      if ChangesProfile(st) {
        ProfileLocal(owner, a, b, st, x);
      } else if ChangesShared(st) {
        SharedLocal(owner, a, b, st, x);
      }
    }
  }

  lemma WritesAreTouched(owner: AssetOwner, st: Stmt, x: Cell)
    ensures Writes(owner, st, x) && !st.PutReady? ==> Touches(owner, st, x)
    ensures Touches(owner, st, x) ==> x != ReadyAt
  {
  }
}
