/** The store's transactions, statement by statement on a database whose tables are
    updated in place.  A method is one transaction: it returns with all its statements
    applied or, after an error, with none. */
module Publication {
  import opened Text
  import opened ChunkIdentity
  import opened Store
  import opened Agreement
  import opened Reconcile
  import opened Runs

  lemma ReplaceTwice(db: Db, model: string, p: Profile, q: Profile)
    ensures WithProfile(WithProfile(db, model, p), model, q) == WithProfile(db, model, q)
  {
    assert db.profiles[model := p][model := q] == db.profiles[model := q];
  }

  lemma DocumentOrder(assets: seq<AssetRecord>, i: nat)
    requires i < |assets|
    ensures assets[..i + 1][..i] == assets[..i] && assets[..i + 1][i] == assets[i]
  {
  }

  class Database {
    var profiles: map<string, Profile>
    var revisions: map<Scope, nat>
    var sources: map<DocKey, Source>
    var assets: map<string, Asset>
    var refs: set<Ref>
    var workspaces: set<string>
    var ready: bool

    function Snapshot(): Db
      reads this
    {
      Db(profiles, revisions, sources, assets, refs, workspaces, ready)
    }

    constructor (db: Db)
      ensures Snapshot() == db
    {
      profiles, revisions, sources := db.profiles, db.revisions, db.sources;
      assets, refs, workspaces, ready := db.assets, db.refs, db.workspaces, db.ready;
    }

    method Restore(db: Db)
      modifies this
      ensures Snapshot() == db
    {
      profiles, revisions, sources := db.profiles, db.revisions, db.sources;
      assets, refs, workspaces, ready := db.assets, db.refs, db.workspaces, db.ready;
    }

    method SetTable(model: string, t: Table)
      requires model in profiles
      modifies this`profiles
      ensures Snapshot() == WithProfile(old(Snapshot()), model, old(profiles)[model].(table := t))
    {
      profiles := profiles[model := profiles[model].(table := t)];
    }

    method SetProfileStatus(model: string, status: Status)
      requires model in profiles
      modifies this`profiles
      ensures Snapshot() == WithProfile(old(Snapshot()), model, old(profiles)[model].(status := status))
    {
      profiles := profiles[model := profiles[model].(status := status)];
    }

    method SetCatalog(model: string, c: Catalog)
      requires model in profiles
      modifies this`profiles
      ensures Snapshot() == WithProfile(old(Snapshot()), model, old(profiles)[model].(catalog := c))
    {
      profiles := profiles[model := profiles[model].(catalog := c)];
    }

    method BumpRevision(scope: Scope)
      modifies this`revisions
      ensures Snapshot() == Bump(old(Snapshot()), scope)
    {
      if scope in revisions {
        revisions := revisions[scope := revisions[scope] + 1];
      } else {
        revisions := revisions[scope := 1];
      }
    }

    method PublishMetadata(model: string, doc: Document, preserve: bool, now: int)
      requires model in profiles
      modifies this`profiles, this`revisions
      ensures Snapshot() == Store.PublishMetadata(old(Snapshot()), model, doc, if preserve then doc.time else Some(now), now)
    {
      var catalog := profiles[model].catalog;
      var known := doc.key in catalog;
      var count := GroupCount(profiles[model].table, doc.key);
      var time := if preserve then doc.time else Some(now);
      var row := CatalogRow(Public(doc.display, time, count), doc.hash, doc.path, doc.root, now);
      var changed := !known || !SamePublication(catalog[doc.key], row);
      if changed {
        SetCatalog(model, catalog[doc.key := row]);
        if !known || catalog[doc.key].public != row.public {
          BumpRevision(ScopeOf(model, doc.key));
        }
      } else {
        assert profiles == profiles[model := profiles[model].(catalog := catalog)];
      }
    }

    method UpsertChunks(model: string, items: seq<Item>)
      requires model in profiles
      modifies this`profiles
      ensures Snapshot() == WithProfile(old(Snapshot()), model,
                old(profiles)[model].(table := Upsert(old(profiles)[model].table, items)))
    {
      ghost var before := Snapshot();
      var i := 0;
      SetTable(model, profiles[model].table);
      while i < |items|
        invariant i <= |items|
        invariant Snapshot() == WithProfile(before, model,
                    before.profiles[model].(table := Upsert(before.profiles[model].table, items[..i])))
      {
        var t := profiles[model].table;
        SetTable(model, t[ItemId(items[i]) := ItemRow(items[i])]);
        assert items[..i + 1][..i] == items[..i];
        ReplaceTwice(before, model, before.profiles[model].(table := t),
                     before.profiles[model].(table := t[ItemId(items[i]) := ItemRow(items[i])]));
        i := i + 1;
      }
      assert items[..i] == items;
    }

    method RecordAssets(model: string, k: DocKey, records: seq<AssetRecord>)
      modifies this`assets, this`refs
      ensures Snapshot() == InsertAssets(old(Snapshot()), model, k, records)
    {
      var i := 0;
      while i < |records|
        invariant i <= |records|
        invariant Snapshot() == InsertAssets(old(Snapshot()), model, k, records[..i])
      {
        if records[i].id !in assets {
          assets := assets[records[i].id := Asset(k, records[i].info)];
        }
        refs := refs + {Ref(model, k, records[i].id)};
        DocumentOrder(records, i);
        i := i + 1;
      }
      assert records[..i] == records;
    }

    method PruneSharedDocument(k: DocKey)
      modifies this`assets, this`sources, this`refs
      ensures Snapshot() == Prune(old(Snapshot()), k)
    {
      if !ready {
        return;
      }
      assets := map a | a in assets && !(assets[a].key == k && !(exists r :: r in refs && r.asset == a)) :: assets[a];
      assert Snapshot() == DropOrphanAssets(old(Snapshot()), k);
      if k in sources && !(exists m :: m in profiles && k in profiles[m].catalog) {
        var gone := set a | a in assets && assets[a].key == k;
        sources := sources - {k};
        assets := assets - gone;
        refs := set r | r in refs && r.asset !in gone;
      }
    }

    /** The chunk rows, the shared source row and the catalog row of one publication. */
    method WriteRows(model: string, doc: Document, items: seq<Item>, preserve: bool, now: int)
      requires model in profiles
      modifies this`profiles, this`sources, this`revisions
      ensures Snapshot() == ReplaceRows(old(Snapshot()), model, doc, items, preserve, now)
    {
      ghost var before := Snapshot();
      var p := profiles[model];
      SetTable(model, DeleteGroups(p.table, {doc.key}));
      if !(preserve && doc.key in sources) {
        sources := sources[doc.key := Source(doc.path, doc.root, doc.kind, doc.hash.Or(""))];
      }
      UpsertChunks(model, items);
      ReplaceTwice(before, model, p.(table := DeleteGroups(p.table, {doc.key})),
                   p.(table := ReplacedTable(p.table, doc.key, items)));
      assert Snapshot() == InsertSource(WithProfile(before, model, p.(table := ReplacedTable(p.table, doc.key, items))), doc, preserve);
      PublishMetadata(model, doc, preserve, now);
    }

    /** `_replace_on_connection`: guards first, then every statement in order. */
    method ReplaceDocument(model: string, doc: Document, items: seq<Item>, records: seq<AssetRecord>,
                           preserve: bool, now: int)
      returns (outcome: Outcome)
      requires model in profiles
      modifies this
      ensures outcome == ReplaceOutcome(old(Snapshot()), model, doc, preserve)
      ensures Snapshot() == Replace(old(Snapshot()), model, doc, items, records, preserve, now)
    {
      if !preserve && profiles[model].status != Ready {
        return NotReady;
      }
      if !preserve && doc.hash.Some? {
        var catalog := profiles[model].catalog;
        if doc.key in catalog && catalog[doc.key].hash == doc.hash {
          return Unchanged;
        }
      }
      outcome := Written;
      WriteRows(model, doc, items, preserve, now);
      ghost var written := Snapshot();
      refs := set r | r in refs && !(r.model == model && r.key in {doc.key});
      assert Snapshot() == DeleteRefs(written, model, {doc.key});
      RecordAssets(model, doc.key, records);
      PruneSharedDocument(doc.key);
    }

    /** The statements of a cleanup up to the new list revision. */
    method RemoveDocuments(model: string, scope: Scope, gone: set<DocKey>)
      requires model in profiles
      modifies this`profiles, this`refs, this`revisions
      ensures var p := old(profiles)[model];
              var cleaned := WithProfile(old(Snapshot()), model, p.(table := DeleteGroups(p.table, gone), catalog := p.catalog - gone));
              Snapshot() == Bump(DeleteRefs(cleaned, model, gone), scope)
    {
      ghost var before := Snapshot();
      var p := profiles[model];
      SetTable(model, DeleteGroups(p.table, gone));
      SetCatalog(model, profiles[model].catalog - gone);
      ReplaceTwice(before, model, p.(table := DeleteGroups(p.table, gone)),
                   p.(table := DeleteGroups(p.table, gone), catalog := p.catalog - gone));
      refs := set r | r in refs && !(r.model == model && r.key in gone);
      BumpRevision(scope);
    }

    method PruneDocuments(order: seq<DocKey>)
      modifies this`assets, this`sources, this`refs
      ensures Snapshot() == PruneAll(old(Snapshot()), order)
    {
      hide Prune;
      ghost var d := Snapshot();
      var i := 0;
      while i < |order|
        invariant i <= |order|
        invariant Snapshot() == PruneAll(d, order[..i])
      {
        PruneSharedDocument(order[i]);
        assert order[..i + 1][..i] == order[..i];
        i := i + 1;
      }
      assert order[..i] == order;
    }

    /** `delete_missing_documents`: the number of removed documents. */
    method DeleteMissingDocuments(model: string, scan: Scan, order: seq<DocKey>) returns (removed: nat)
      requires model in profiles
      requires Enumerates(order, MissingKeys(profiles[model].catalog, scan))
      modifies this
      ensures Snapshot() == DeleteMissing(old(Snapshot()), model, scan, order)
      ensures removed == |order|
    {
      hide MissingKeys, DeleteGroups, PruneAll;
      var gone := MissingKeys(profiles[model].catalog, scan);
      removed := |order|;
      assert forall i :: 0 <= i < |order| ==> order[i] in (set k | k in order);
      if gone == {} {
        return;
      }
      RemoveDocuments(model, Scope(scan.workspace, model, scan.chunking), gone);
      PruneDocuments(order);
    }
  }
}
