/** The catalog as an index of the chunk tables: what it means for it to agree, and
    which publications keep it in agreement. */
module Agreement {
  import opened Text
  import opened ChunkIdentity
  import opened Store

  /** A chunk row is either outside every workspace or filed under a catalog row. */
  ghost predicate Filed(m: Metadata, catalog: Catalog) {
    Unscoped(m) || (SqlGroup(m).Some? && SqlGroup(m).value in catalog)
  }

  /** Every workspace-scoped chunk has a catalog row for its document, and every catalog
      row counts exactly the stored chunks of its document. */
  ghost predicate Agrees(p: Profile) {
    && (forall id :: id in p.table ==> Filed(p.table[id].metadata, p.catalog))
    && (forall k :: k in p.catalog ==> p.catalog[k].public.count == GroupCount(p.table, k))
  }

  ghost predicate CatalogAgrees(db: Db) {
    forall m :: m in db.profiles && db.profiles[m].provisioned ==> Agrees(db.profiles[m])
  }

  // ---- Effects of the statements -------------------------------------------------

  function ItemIds(items: seq<Item>): set<RowId> {
    set i | 0 <= i < |items| :: ItemId(items[i])
  }

  lemma {:induction false} UpsertShape(t: Table, items: seq<Item>)
    ensures Upsert(t, items).Keys == t.Keys + ItemIds(items)
    ensures forall id :: id in t && id !in ItemIds(items) ==> Upsert(t, items)[id] == t[id]
    ensures forall id :: id in ItemIds(items) ==>
              exists i :: 0 <= i < |items| && ItemId(items[i]) == id && Upsert(t, items)[id] == ItemRow(items[i])
  {
    if items != [] {
      var n := |items| - 1;
      UpsertShape(t, items[..n]);
      assert ItemIds(items) == ItemIds(items[..n]) + {ItemId(items[n])};
      var u := Upsert(t, items[..n]);
      forall id | id in ItemIds(items)
        ensures exists i :: 0 <= i < |items| && ItemId(items[i]) == id && Upsert(t, items)[id] == ItemRow(items[i])
      {
        if id == ItemId(items[n]) {
          assert Upsert(t, items)[id] == ItemRow(items[n]);
        } else {
          var i :| 0 <= i < n && ItemId(items[..n][i]) == id && u[id] == ItemRow(items[..n][i]);
          assert ItemId(items[i]) == id && Upsert(t, items)[id] == ItemRow(items[i]);
        }
      }
    }
  }

  /** Rows, revisions and flags that publication of shared rows leaves alone. */
  ghost predicate SameLists(a: Db, b: Db) {
    a.profiles == b.profiles && a.revisions == b.revisions && a.workspaces == b.workspaces && a.ready == b.ready
  }

  lemma {:induction false} InsertAssetsKeepsLists(db: Db, model: string, k: DocKey, assets: seq<AssetRecord>)
    ensures SameLists(InsertAssets(db, model, k, assets), db)
    ensures InsertAssets(db, model, k, assets).sources == db.sources
  {
    if assets != [] {
      InsertAssetsKeepsLists(db, model, k, assets[..|assets| - 1]);
    }
  }

  lemma SharedRowsKeepLists(db: Db, model: string, k: DocKey, assets: seq<AssetRecord>)
    ensures SameLists(Prune(InsertAssets(DeleteRefs(db, model, {k}), model, k, assets), k), db)
  {
    InsertAssetsKeepsLists(DeleteRefs(db, model, {k}), model, k, assets);
  }

  lemma {:induction false} PruneAllKeepsLists(db: Db, ks: seq<DocKey>)
    ensures SameLists(PruneAll(db, ks), db)
  {
    if ks != [] {
      PruneAllKeepsLists(db, ks[..|ks| - 1]);
    }
  }

  lemma BumpEffect(db: Db, scope: Scope)
    ensures forall s: Scope :: Revision(Bump(db, scope), s) == Revision(db, s) + (if s == scope then 1 else 0)
  {
  }

  /** A profile after one of its documents has been published. */
  function ReplacedProfile(p: Profile, doc: Document, items: seq<Item>, time: Option<int>, now: int): Profile {
    var t := ReplacedTable(p.table, doc.key, items);
    p.(table := t, catalog := PublishRow(p.catalog, doc.key, NewRow(t, doc, time, now)))
  }

  /** `after` is `before` with one profile changed and one list's revision raised or kept. */
  ghost predicate Rewrites(after: Db, before: Db, model: string, p: Profile, scope: Scope, changed: bool)
    requires model in before.profiles
  {
    && after.profiles == before.profiles[model := p]
    && (forall s: Scope :: Revision(after, s) == Revision(before, s) + (if s == scope && changed then 1 else 0))
    && after.workspaces == before.workspaces
    && after.ready == before.ready
  }

  lemma PublishEffect(db: Db, model: string, doc: Document, time: Option<int>, now: int)
    requires model in db.profiles
    ensures var p := db.profiles[model];
            var row := NewRow(p.table, doc, time, now);
            Rewrites(PublishMetadata(db, model, doc, time, now), db, model,
                     p.(catalog := PublishRow(p.catalog, doc.key, row)),
                     ScopeOf(model, doc.key), PublicChanges(p.catalog, doc.key, row))
  {
    var p := db.profiles[model];
    var row := NewRow(p.table, doc, time, now);
    BumpEffect(WithProfile(db, model, p.(catalog := PublishRow(p.catalog, doc.key, row))), ScopeOf(model, doc.key));
  }

  lemma ReplaceRowsEffect(db: Db, model: string, doc: Document, items: seq<Item>, preserve: bool, now: int)
    requires model in db.profiles
    ensures var p := db.profiles[model];
            var time := if preserve then doc.time else Some(now);
            Rewrites(ReplaceRows(db, model, doc, items, preserve, now), db, model,
                     ReplacedProfile(p, doc, items, time, now), ScopeOf(model, doc.key),
                     PublicChanges(p.catalog, doc.key, NewRow(ReplacedTable(p.table, doc.key, items), doc, time, now)))
  {
    var p := db.profiles[model];
    var q := p.(table := ReplacedTable(p.table, doc.key, items));
    var d := InsertSource(WithProfile(db, model, q), doc, preserve);
    assert d.profiles[model] == q;
    PublishEffect(d, model, doc, if preserve then doc.time else Some(now), now);
  }

  /** What a written publication leaves behind. */
  lemma ReplaceEffect(db: Db, model: string, doc: Document, items: seq<Item>,
                      assets: seq<AssetRecord>, preserve: bool, now: int)
    requires model in db.profiles
    ensures var p := db.profiles[model];
            var time := if preserve then doc.time else Some(now);
            Rewrites(ReplaceWritten(db, model, doc, items, assets, preserve, now), db, model,
                     ReplacedProfile(p, doc, items, time, now), ScopeOf(model, doc.key),
                     PublicChanges(p.catalog, doc.key, NewRow(ReplacedTable(p.table, doc.key, items), doc, time, now)))
  {
    ReplaceRowsEffect(db, model, doc, items, preserve, now);
    SharedRowsKeepLists(ReplaceRows(db, model, doc, items, preserve, now), model, doc.key, assets);
  }

  // ---- Publications that keep the agreement ---------------------------------------

  ghost predicate ItemsBelong(items: seq<Item>, k: DocKey) {
    forall i :: 0 <= i < |items| ==> SqlGroup(ItemRow(items[i]).metadata) == Some(k)
  }

  /** An item would land on a row that is filed under another document. */
  ghost predicate Overwrites(t: Table, items: seq<Item>, k: DocKey) {
    exists i :: 0 <= i < |items| && ItemId(items[i]) in t
                && SqlGroup(t[ItemId(items[i])].metadata).Some?
                && SqlGroup(t[ItemId(items[i])].metadata) != Some(k)
  }

  lemma ReplacedGroup(t: Table, k: DocKey, items: seq<Item>)
    requires ItemsBelong(items, k)
    ensures GroupIds(ReplacedTable(t, k, items), k) == ItemIds(items)
    ensures forall o: DocKey :: o != k ==>
              GroupIds(ReplacedTable(t, k, items), o) == GroupIds(t, o) - ItemIds(items)
  {
    var base := DeleteGroups(t, {k});
    UpsertShape(base, items);
    var u := ReplacedTable(t, k, items);
    forall id | id in u
      ensures id in ItemIds(items) ==> InGroup(u, id, k)
      ensures id !in ItemIds(items) ==> id in t && u[id] == t[id] && !InGroup(u, id, k)
    {
    }
  }

  lemma SmallerSet<T>(a: set<T>, b: set<T>)
    ensures |a - b| == |a| <==> a * b == {}
  {
    assert a == (a - b) + a * b;
    assert |a| == |a - b| + |a * b|;
  }

  /** A publication of a document's own chunks keeps the catalog in agreement exactly
      when none of them lands on another document's row. */
  lemma ReplaceAgrees(p: Profile, doc: Document, items: seq<Item>, time: Option<int>, now: int)
    requires Agrees(p)
    requires ItemsBelong(items, doc.key)
    ensures Agrees(ReplacedProfile(p, doc, items, time, now)) <==> !Overwrites(p.table, items, doc.key)
  {
    if Overwrites(p.table, items, doc.key) {
      OverwriteMiscounts(p, doc, items, time, now);
    } else {
      CleanReplaceFiles(p, doc, items, time, now);
      CleanReplaceCounts(p, doc, items, time, now);
    }
  }

  lemma CleanReplaceFiles(p: Profile, doc: Document, items: seq<Item>, time: Option<int>, now: int)
    requires Agrees(p)
    requires ItemsBelong(items, doc.key)
    ensures var q := ReplacedProfile(p, doc, items, time, now);
            forall id :: id in q.table ==> Filed(q.table[id].metadata, q.catalog)
  {
    var q := ReplacedProfile(p, doc, items, time, now);
    UpsertShape(DeleteGroups(p.table, {doc.key}), items);
    forall id | id in q.table ensures Filed(q.table[id].metadata, q.catalog) {
      assert id !in ItemIds(items) ==> Filed(p.table[id].metadata, p.catalog);
    }
  }

  lemma CleanReplaceCounts(p: Profile, doc: Document, items: seq<Item>, time: Option<int>, now: int)
    requires Agrees(p)
    requires ItemsBelong(items, doc.key)
    requires !Overwrites(p.table, items, doc.key)
    ensures var q := ReplacedProfile(p, doc, items, time, now);
            forall k :: k in q.catalog ==> q.catalog[k].public.count == GroupCount(q.table, k)
  {
    var q := ReplacedProfile(p, doc, items, time, now);
    ReplacedGroup(p.table, doc.key, items);
    forall k | k in q.catalog && k != doc.key ensures q.catalog[k].public.count == GroupCount(q.table, k) {
      assert GroupIds(p.table, k) * ItemIds(items) == {};
      assert GroupIds(q.table, k) == GroupIds(p.table, k);
    }
  }

  lemma OverwriteMiscounts(p: Profile, doc: Document, items: seq<Item>, time: Option<int>, now: int)
    requires Agrees(p)
    requires ItemsBelong(items, doc.key)
    requires Overwrites(p.table, items, doc.key)
    ensures !Agrees(ReplacedProfile(p, doc, items, time, now))
  {
    var q := ReplacedProfile(p, doc, items, time, now);
    var i :| 0 <= i < |items| && ItemId(items[i]) in p.table
             && SqlGroup(p.table[ItemId(items[i])].metadata).Some?
             && SqlGroup(p.table[ItemId(items[i])].metadata) != Some(doc.key);
    var lost := ItemId(items[i]);
    var k := SqlGroup(p.table[lost].metadata).value;
    assert Filed(p.table[lost].metadata, p.catalog);
    ReplacedGroup(p.table, doc.key, items);
    assert lost in GroupIds(p.table, k) * ItemIds(items);
    SmallerSet(GroupIds(p.table, k), ItemIds(items));
    assert q.catalog[k].public.count != GroupCount(q.table, k);
  }

  /** Directory cleanup removes whole documents from table and catalog alike. */
  function CleanedProfile(p: Profile, scan: Scan): Profile {
    var gone := MissingKeys(p.catalog, scan);
    p.(table := DeleteGroups(p.table, gone), catalog := p.catalog - gone)
  }

  lemma DeleteMissingEffect(db: Db, model: string, scan: Scan, order: seq<DocKey>)
    requires model in db.profiles
    ensures Rewrites(DeleteMissing(db, model, scan, order), db, model, CleanedProfile(db.profiles[model], scan),
                     Scope(scan.workspace, model, scan.chunking), MissingKeys(db.profiles[model].catalog, scan) != {})
  {
    var p := db.profiles[model];
    var gone := MissingKeys(p.catalog, scan);
    if gone == {} {
      assert CleanedProfile(p, scan) == p;
    } else {
      var d := DeleteRefs(WithProfile(db, model, CleanedProfile(p, scan)), model, gone);
      BumpEffect(d, Scope(scan.workspace, model, scan.chunking));
      PruneAllKeepsLists(Bump(d, Scope(scan.workspace, model, scan.chunking)), order);
    }
  }

  lemma CleanupAgrees(p: Profile, scan: Scan)
    requires Agrees(p)
    ensures Agrees(CleanedProfile(p, scan))
  {
    var q := CleanedProfile(p, scan);
    forall id | id in q.table ensures Filed(q.table[id].metadata, q.catalog) {
      assert Filed(p.table[id].metadata, p.catalog);
    }
    forall k | k in q.catalog ensures q.catalog[k].public.count == GroupCount(q.table, k) {
      assert GroupIds(q.table, k) == GroupIds(p.table, k);
    }
  }
}
