/** Publishing a document again: what a warmed publication leaves behind, that doing it
    twice changes nothing, and that other documents' publications do not disturb it. */
module Republication {
  import opened Text
  import opened ChunkIdentity
  import opened Store
  import opened Agreement
  import opened Runs

  /** A warmed document, ready to be written: its row, its embedded chunks, its assets. */
  datatype Pub = Pub(doc: Document, items: seq<Item>, assets: seq<AssetRecord>)

  function AssetNames(assets: seq<AssetRecord>): set<string> {
    set i | 0 <= i < |assets| :: assets[i].id
  }

  function PublishOne(db: Db, model: string, pub: Pub, now: int): (r: Db)
    requires model in db.profiles
    ensures model in r.profiles
  {
    ReplaceWritten(db, model, pub.doc, pub.items, pub.assets, true, now)
  }

  /** References never leave the document their asset belongs to. */
  ghost predicate Homed(db: Db) {
    forall r :: r in db.refs ==> r.asset in db.assets && db.assets[r.asset].key == r.key
  }

  /** The asset records a warm copies: rows of the shared table, under the document's key. */
  ghost predicate AssetsKnown(db: Db, pub: Pub) {
    forall a :: a in AssetNames(pub.assets) ==> a in db.assets && db.assets[a].key == pub.doc.key
  }

  // ---- A settled publication ---------------------------------------------------------

  /** The chunk rows of a publication are in place, and no others of its document. */
  ghost predicate RowsSettled(t: Table, pub: Pub) {
    && (forall id :: id in ItemIds(pub.items) ==> id in t && id in Upsert(map[], pub.items) && t[id] == Upsert(map[], pub.items)[id])
    && (forall id :: id in t && InGroup(t, id, pub.doc.key) ==> id in ItemIds(pub.items))
  }

  ghost predicate SharedSettled(db: Db, model: string, pub: Pub) {
    && pub.doc.key in db.sources
    && (forall a :: Ref(model, pub.doc.key, a) in db.refs <==> a in AssetNames(pub.assets))
    && AssetsKnown(db, pub)
    && (db.ready ==> forall a :: a in db.assets && db.assets[a].key == pub.doc.key ==> Referenced(db, a))
  }

  ghost predicate Settled(db: Db, model: string, pub: Pub)
    requires model in db.profiles
  {
    var p := db.profiles[model];
    && RowsSettled(p.table, pub)
    && pub.doc.key in p.catalog
    && SamePublication(p.catalog[pub.doc.key], NewRow(p.table, pub.doc, pub.doc.time, 0))
    && SharedSettled(db, model, pub)
  }

  lemma {:induction false} UpsertSameRows(t: Table, u: Table, items: seq<Item>)
    ensures forall id :: id in ItemIds(items) ==>
              id in Upsert(t, items) && id in Upsert(u, items) && Upsert(t, items)[id] == Upsert(u, items)[id]
  {
    if items != [] {
      var n := |items| - 1;
      UpsertSameRows(t, u, items[..n]);
      assert ItemIds(items) == ItemIds(items[..n]) + {ItemId(items[n])};
    }
  }

  lemma SettledRowsStay(t: Table, pub: Pub)
    requires RowsSettled(t, pub) && ItemsBelong(pub.items, pub.doc.key)
    ensures ReplacedTable(t, pub.doc.key, pub.items) == t
  {
    var base := DeleteGroups(t, {pub.doc.key});
    var u := ReplacedTable(t, pub.doc.key, pub.items);
    UpsertShape(base, pub.items);
    UpsertSameRows(base, map[], pub.items);
    forall id ensures id in u <==> id in t {
    }
    forall id | id in t ensures u[id] == t[id] {
    }
  }

  lemma ReplacedRowsSettle(t: Table, pub: Pub)
    requires ItemsBelong(pub.items, pub.doc.key)
    ensures RowsSettled(ReplacedTable(t, pub.doc.key, pub.items), pub)
  {
    var base := DeleteGroups(t, {pub.doc.key});
    UpsertShape(base, pub.items);
    UpsertSameRows(base, map[], pub.items);
    ReplacedGroup(t, pub.doc.key, pub.items);
    var u := ReplacedTable(t, pub.doc.key, pub.items);
    forall id | id in u && InGroup(u, id, pub.doc.key) ensures id in ItemIds(pub.items) {
      assert id in GroupIds(u, pub.doc.key);
    }
  }

  /** Replacing another document's chunks leaves a settled one's rows alone. */
  lemma OtherRowsStay(t: Table, pub: Pub, k: DocKey, items: seq<Item>)
    requires RowsSettled(t, pub) && ItemsBelong(pub.items, pub.doc.key) && pub.doc.key != k
    requires ItemsBelong(items, k) && !Overwrites(t, items, k)
    ensures RowsSettled(ReplacedTable(t, k, items), pub)
    ensures GroupIds(ReplacedTable(t, k, items), pub.doc.key) == GroupIds(t, pub.doc.key)
  {
    var base := DeleteGroups(t, {k});
    var u := ReplacedTable(t, k, items);
    UpsertShape(base, items);
    UpsertShape(map[], pub.items);
    forall id | id in ItemIds(pub.items)
      ensures id in u && u[id] == t[id] && id !in ItemIds(items)
    {
      assert SqlGroup(t[id].metadata) == Some(pub.doc.key);
    }
    ReplacedGroup(t, k, items);
    forall id | id in u && InGroup(u, id, pub.doc.key) ensures id in ItemIds(pub.items) {
      assert id in GroupIds(u, pub.doc.key);
      assert id in GroupIds(t, pub.doc.key);
    }
    assert GroupIds(t, pub.doc.key) * ItemIds(items) == {};
  }

  // ---- Shared rows -----------------------------------------------------------------

  lemma {:induction false} InsertAssetsEffect(db: Db, model: string, k: DocKey, assets: seq<AssetRecord>)
    ensures var r := InsertAssets(db, model, k, assets);
            && (forall x :: x in r.refs <==> x in db.refs || (x.model == model && x.key == k && x.asset in AssetNames(assets)))
            && ((forall a :: a in AssetNames(assets) ==> a in db.assets) ==> r.assets == db.assets)
  {
    if assets != [] {
      var n := |assets| - 1;
      InsertAssetsEffect(db, model, k, assets[..n]);
      assert AssetNames(assets) == AssetNames(assets[..n]) + {assets[n].id};
    }
  }

  /** The database between the row statements and the pruning. */
  function Recorded(db: Db, model: string, pub: Pub): Db {
    InsertAssets(DeleteRefs(db, model, {pub.doc.key}), model, pub.doc.key, pub.assets)
  }

  lemma RecordedEffect(db: Db, model: string, pub: Pub)
    requires AssetsKnown(db, pub)
    ensures var r := Recorded(db, model, pub);
            && SameLists(r, db) && r.sources == db.sources && r.assets == db.assets
            && (forall x :: x in r.refs <==>
                  if x.model == model && x.key == pub.doc.key then x.asset in AssetNames(pub.assets) else x in db.refs)
  {
    InsertAssetsKeepsLists(DeleteRefs(db, model, {pub.doc.key}), model, pub.doc.key, pub.assets);
    InsertAssetsEffect(DeleteRefs(db, model, {pub.doc.key}), model, pub.doc.key, pub.assets);
  }

  lemma PruneOfPublished(db: Db, k: DocKey)
    requires Published(db, k)
    ensures var r := Prune(db, k);
            && SameLists(r, db) && r.sources == db.sources && r.refs == db.refs
            && (forall a :: a in r.assets <==> a in db.assets && !(db.ready && db.assets[a].key == k && !Referenced(db, a)))
            && (forall a :: a in r.assets ==> r.assets[a] == db.assets[a])
  {
  }

  /** Everything about the shared rows after one warmed publication. */
  ghost predicate SharedAfter(r: Db, db: Db, model: string, pub: Pub) {
    && pub.doc.key in r.sources && (forall k :: k in db.sources ==> k in r.sources)
    && r.ready == db.ready
    && (forall x :: x in r.refs <==>
          if x.model == model && x.key == pub.doc.key then x.asset in AssetNames(pub.assets) else x in db.refs)
    && (forall a :: a in r.assets <==> a in db.assets && !(db.ready && db.assets[a].key == pub.doc.key && !Referenced(r, a)))
    && (forall a :: a in r.assets ==> r.assets[a] == db.assets[a])
  }

  /** The row statements add a source and a catalog row, and leave assets and references alone. */
  lemma ReplaceRowsShared(db: Db, model: string, pub: Pub, now: int)
    requires model in db.profiles
    ensures var d := ReplaceRows(db, model, pub.doc, pub.items, true, now);
            && d.assets == db.assets && d.refs == db.refs && d.ready == db.ready
            && pub.doc.key in d.sources && (forall k :: k in db.sources ==> k in d.sources)
            && Published(d, pub.doc.key)
  {
    hide ReplacedTable, NewRow;
    ReplaceRowsEffect(db, model, pub.doc, pub.items, true, now);
    assert pub.doc.key in ReplaceRows(db, model, pub.doc, pub.items, true, now).profiles[model].catalog;
  }

  lemma PublishOneShared(db: Db, model: string, pub: Pub, now: int)
    requires model in db.profiles && AssetsKnown(db, pub)
    ensures SharedAfter(PublishOne(db, model, pub, now), db, model, pub)
  {
    hide ReplaceRows, Prune, InsertAssets, DeleteRefs;
    ReplaceRowsShared(db, model, pub, now);
    var d := ReplaceRows(db, model, pub.doc, pub.items, true, now);
    RecordedEffect(d, model, pub);
    var e := Recorded(d, model, pub);
    assert Published(e, pub.doc.key);
    PruneOfPublished(e, pub.doc.key);
    assert forall a :: Referenced(Prune(e, pub.doc.key), a) <==> Referenced(e, a);
  }

  // ---- Publishing settles; publishing again is idle; others do not disturb -------------

  lemma PublishSettles(db: Db, model: string, pub: Pub, now: int)
    requires model in db.profiles && AssetsKnown(db, pub) && ItemsBelong(pub.items, pub.doc.key)
    ensures Settled(PublishOne(db, model, pub, now), model, pub)
    ensures AssetsKnown(PublishOne(db, model, pub, now), pub)
  {
    var r := PublishOne(db, model, pub, now);
    ReplaceEffect(db, model, pub.doc, pub.items, pub.assets, true, now);
    ReplacedRowsSettle(db.profiles[model].table, pub);
    PublishOneShared(db, model, pub, now);
    SharedSettles(r, db, model, pub);
  }

  lemma SharedSettles(r: Db, db: Db, model: string, pub: Pub)
    requires SharedAfter(r, db, model, pub) && AssetsKnown(db, pub)
    ensures SharedSettled(r, model, pub)
  {
    forall a ensures Ref(model, pub.doc.key, a) in r.refs <==> a in AssetNames(pub.assets) {
    }
    forall a | a in AssetNames(pub.assets) ensures a in r.assets {
      assert Ref(model, pub.doc.key, a) in r.refs;
    }
  }

  lemma SettledIsIdle(db: Db, model: string, pub: Pub, now: int)
    requires model in db.profiles && ItemsBelong(pub.items, pub.doc.key)
    requires Settled(db, model, pub)
    ensures PublishOne(db, model, pub, now) == db
  {
    var p := db.profiles[model];
    SettledRowsStay(p.table, pub);
    assert db.profiles[model := p] == db.profiles;
    assert p.(table := ReplacedTable(p.table, pub.doc.key, pub.items)) == p;
    assert SamePublication(p.catalog[pub.doc.key], NewRow(p.table, pub.doc, pub.doc.time, now));
    assert ReplaceRows(db, model, pub.doc, pub.items, true, now) == db;
    RecordedEffect(db, model, pub);
    assert Recorded(db, model, pub).refs == db.refs;
    assert Recorded(db, model, pub) == db;
    assert Published(db, pub.doc.key);
    PruneOfPublished(db, pub.doc.key);
    assert Prune(db, pub.doc.key).assets == db.assets;
  }

  lemma OthersStaySettled(db: Db, model: string, pub: Pub, other: Pub, now: int)
    requires model in db.profiles && pub.doc.key != other.doc.key
    requires ItemsBelong(pub.items, pub.doc.key) && ItemsBelong(other.items, other.doc.key)
    requires !Overwrites(db.profiles[model].table, other.items, other.doc.key)
    requires Homed(db) && AssetsKnown(db, other) && Settled(db, model, pub)
    ensures Settled(PublishOne(db, model, other, now), model, pub)
  {
    var r := PublishOne(db, model, other, now);
    ReplaceEffect(db, model, other.doc, other.items, other.assets, true, now);
    OtherRowsStay(db.profiles[model].table, pub, other.doc.key, other.items);
    PublishOneShared(db, model, other, now);
    SharedStays(r, db, model, pub, other);
  }

  lemma SharedStays(r: Db, db: Db, model: string, pub: Pub, other: Pub)
    requires SharedAfter(r, db, model, other) && pub.doc.key != other.doc.key
    requires Homed(db) && SharedSettled(db, model, pub)
    ensures SharedSettled(r, model, pub)
  {
    forall a ensures Ref(model, pub.doc.key, a) in r.refs <==> a in AssetNames(pub.assets) {
    }
    forall a | a in r.assets && r.assets[a].key == pub.doc.key && db.ready ensures Referenced(r, a) {
      assert Referenced(db, a);
      var x :| x in db.refs && x.asset == a;
      assert x in r.refs;
    }
  }

  // ---- All of a publication but its chunk rows ----------------------------------------------

  /** A database with one profile's chunk table taken out. */
  function Emptied(db: Db, model: string): (r: Db)
    requires model in db.profiles
    ensures model in r.profiles
  {
    WithProfile(db, model, db.profiles[model].(table := map[]))
  }

  /** How many of its chunks a publication counts: those filed under its document. */
  function OwnCount(pub: Pub): nat {
    GroupCount(Upsert(map[], pub.items), pub.doc.key)
  }

  /** The count does not depend on the table, wherever the chunks themselves are filed. */
  lemma CountOfItems(t: Table, pub: Pub)
    ensures GroupCount(ReplacedTable(t, pub.doc.key, pub.items), pub.doc.key) == OwnCount(pub)
  {
    var k := pub.doc.key;
    var base, u := DeleteGroups(t, {k}), Upsert(map[], pub.items);
    UpsertShape(base, pub.items);
    UpsertShape(map[], pub.items);
    UpsertSameRows(base, map[], pub.items);
    var v := ReplacedTable(t, k, pub.items);
    forall id ensures id in GroupIds(v, k) <==> id in GroupIds(u, k) {
      if id in ItemIds(pub.items) {
        assert v[id] == u[id];
      } else {
        assert id in v ==> id in base && v[id] == base[id];
      }
    }
    assert GroupIds(v, k) == GroupIds(u, k);
  }

  lemma {:induction false} EmptiedInsertAssets(db: Db, model: string, at: string, k: DocKey, assets: seq<AssetRecord>)
    requires model in db.profiles
    ensures InsertAssets(Emptied(db, model), at, k, assets) == Emptied(InsertAssets(db, at, k, assets), model)
  {
    if assets != [] {
      EmptiedInsertAssets(db, model, at, k, assets[..|assets| - 1]);
    }
  }

  lemma EmptiedPrune(db: Db, model: string, k: DocKey)
    requires model in db.profiles
    ensures model in Prune(db, k).profiles && Prune(Emptied(db, model), k) == Emptied(Prune(db, k), model)
  {
    assert Emptied(db, model).profiles[model].catalog == db.profiles[model].catalog;
    assert forall m :: m in db.profiles ==> Emptied(db, model).profiles[m].catalog == db.profiles[m].catalog;
    var d, e := DropOrphanAssets(db, k), DropOrphanAssets(Emptied(db, model), k);
    assert e == Emptied(d, model);
    assert Published(d, k) <==> Published(e, k);
  }

  lemma EmptiedRows(db: Db, model: string, pub: Pub, now: int)
    requires model in db.profiles
    ensures Emptied(ReplaceRows(db, model, pub.doc, pub.items, true, now), model)
         == Emptied(ReplaceRows(Emptied(db, model), model, pub.doc, pub.items, true, now), model)
  {
    hide ReplacedTable, GroupCount, OwnCount, Store.PublishMetadata, InsertSource;
    var p, k := db.profiles[model], pub.doc.key;
    var t, u := ReplacedTable(p.table, k, pub.items), ReplacedTable(map[], k, pub.items);
    CountOfItems(p.table, pub);
    CountOfItems(map[], pub);
    assert NewRow(t, pub.doc, pub.doc.time, now) == NewRow(u, pub.doc, pub.doc.time, now);
    var a := WithProfile(db, model, p.(table := t));
    var b := WithProfile(Emptied(db, model), model, p.(table := u));
    SourceEmptied(a, b, model, pub.doc);
    MetadataEmptied(InsertSource(a, pub.doc, true), InsertSource(b, pub.doc, true), model, pub.doc, now);
  }

  lemma SourceEmptied(a: Db, b: Db, model: string, doc: Document)
    requires model in a.profiles && model in b.profiles && Emptied(a, model) == Emptied(b, model)
    ensures var c, d := InsertSource(a, doc, true), InsertSource(b, doc, true);
            && c.profiles == a.profiles && d.profiles == b.profiles
            && model in c.profiles && model in d.profiles && Emptied(c, model) == Emptied(d, model)
  {
  }

  lemma MetadataEmptied(a: Db, b: Db, model: string, doc: Document, now: int)
    requires model in a.profiles && model in b.profiles && Emptied(a, model) == Emptied(b, model)
    requires NewRow(a.profiles[model].table, doc, doc.time, now) == NewRow(b.profiles[model].table, doc, doc.time, now)
    ensures Emptied(Store.PublishMetadata(a, model, doc, doc.time, now), model) == Emptied(Store.PublishMetadata(b, model, doc, doc.time, now), model)
  {
    var row := NewRow(a.profiles[model].table, doc, doc.time, now);
    var p, q := a.profiles[model], b.profiles[model];
    assert Emptied(a, model).profiles[model] == Emptied(b, model).profiles[model];
    assert p.(table := map[]) == q.(table := map[]);
    assert p.catalog == q.catalog;
    var c := PublishRow(p.catalog, doc.key, row);
    SetTwice(a, b, model, p.(catalog := c), q.(catalog := c));
    SetBumped(a, b, model, p.(catalog := c), q.(catalog := c), ScopeOf(model, doc.key));
  }

  lemma SetTwice(a: Db, b: Db, model: string, p: Profile, q: Profile)
    requires model in a.profiles && model in b.profiles && Emptied(a, model) == Emptied(b, model)
    requires p.(table := map[]) == q.(table := map[])
    ensures Emptied(WithProfile(a, model, p), model) == Emptied(WithProfile(b, model, q), model)
  {
    var e := p.(table := map[]);
    assert a.profiles[model := p][model := e] == Emptied(a, model).profiles[model := e];
    assert b.profiles[model := q][model := e] == Emptied(b, model).profiles[model := e];
  }

  lemma SetBumped(a: Db, b: Db, model: string, p: Profile, q: Profile, scope: Scope)
    requires model in a.profiles && model in b.profiles && Emptied(a, model) == Emptied(b, model)
    requires p.(table := map[]) == q.(table := map[])
    ensures Emptied(Bump(WithProfile(a, model, p), scope), model) == Emptied(Bump(WithProfile(b, model, q), scope), model)
  {
    SetTwice(a, b, model, p, q);
    assert Emptied(a, model).revisions == a.revisions == b.revisions;
  }

  /** What a publication does outside the chunk table does not depend on the table. */
  lemma PublishEmptied(db: Db, model: string, pub: Pub, now: int)
    requires model in db.profiles
    ensures Emptied(PublishOne(db, model, pub, now), model) == Emptied(PublishOne(Emptied(db, model), model, pub, now), model)
  {
    hide ReplaceRows, Prune, InsertAssets;
    EmptiedRows(db, model, pub, now);
    EmptiedShared(ReplaceRows(db, model, pub.doc, pub.items, true, now), model, pub.doc.key, pub.assets);
    EmptiedShared(ReplaceRows(Emptied(db, model), model, pub.doc, pub.items, true, now), model, pub.doc.key, pub.assets);
  }

  lemma EmptiedShared(d: Db, model: string, k: DocKey, assets: seq<AssetRecord>)
    requires model in d.profiles
    ensures var r := Prune(InsertAssets(DeleteRefs(d, model, {k}), model, k, assets), k);
            model in r.profiles && Emptied(r, model) == Prune(InsertAssets(DeleteRefs(Emptied(d, model), model, {k}), model, k, assets), k)
  {
    hide Prune, InsertAssets;
    assert DeleteRefs(Emptied(d, model), model, {k}) == Emptied(DeleteRefs(d, model, {k}), model);
    EmptiedInsertAssets(DeleteRefs(d, model, {k}), model, model, k, assets);
    EmptiedPrune(InsertAssets(DeleteRefs(d, model, {k}), model, k, assets), model, k);
  }

  /** A publication is in place but for its chunk rows. */
  ghost predicate ListedSettled(db: Db, model: string, pub: Pub)
    requires model in db.profiles
  {
    var c := db.profiles[model].catalog;
    && pub.doc.key in c
    && SamePublication(c[pub.doc.key],
                       CatalogRow(Public(pub.doc.display, pub.doc.time, OwnCount(pub)), pub.doc.hash, pub.doc.path, pub.doc.root, 0))
    && SharedSettled(db, model, pub)
  }

  lemma SettledInParts(db: Db, model: string, pub: Pub)
    requires model in db.profiles && ItemsBelong(pub.items, pub.doc.key) && RowsSettled(db.profiles[model].table, pub)
    ensures ListedSettled(db, model, pub) <==> Settled(db, model, pub)
  {
    var t := db.profiles[model].table;
    SettledRowsStay(t, pub);
    CountOfItems(t, pub);
  }

  lemma PublishSettlesListed(db: Db, model: string, pub: Pub, now: int)
    requires model in db.profiles && AssetsKnown(db, pub)
    ensures ListedSettled(PublishOne(db, model, pub, now), model, pub)
  {
    hide ReplaceWritten, ReplacedTable, GroupCount, SharedSettled, OwnCount;
    var r := PublishOne(db, model, pub, now);
    ReplaceEffect(db, model, pub.doc, pub.items, pub.assets, true, now);
    CountOfItems(db.profiles[model].table, pub);
    PublishOneShared(db, model, pub, now);
    SharedSettles(r, db, model, pub);
  }

  lemma ListedIsIdle(db: Db, model: string, pub: Pub, now: int)
    requires model in db.profiles && ListedSettled(db, model, pub)
    ensures Emptied(PublishOne(db, model, pub, now), model) == Emptied(db, model)
  {
    hide ReplaceRows, Prune, InsertAssets, DeleteRefs, SharedSettled;
    ListedRowsIdle(db, model, pub, now);
    var d := ReplaceRows(db, model, pub.doc, pub.items, true, now);
    EmptiedShared(d, model, pub.doc.key, pub.assets);
    SharedIsIdle(Emptied(db, model), model, pub);
  }

  lemma ListedRowsIdle(db: Db, model: string, pub: Pub, now: int)
    requires model in db.profiles && ListedSettled(db, model, pub)
    ensures Emptied(ReplaceRows(db, model, pub.doc, pub.items, true, now), model) == Emptied(db, model)
    ensures SharedSettled(Emptied(db, model), model, pub) && Published(Emptied(db, model), pub.doc.key)
  {
    hide ReplacedTable, GroupCount, OwnCount;
    var p, k := db.profiles[model], pub.doc.key;
    var t := ReplacedTable(p.table, k, pub.items);
    CountOfItems(p.table, pub);
    var d := WithProfile(db, model, p.(table := t));
    assert SamePublication(p.catalog[k], NewRow(t, pub.doc, pub.doc.time, now));
    assert db.profiles[model := p.(table := t)][model := p.(table := t)] == db.profiles[model := p.(table := t)];
    assert ReplaceRows(db, model, pub.doc, pub.items, true, now) == d;
    assert db.profiles[model := p.(table := t)][model := p.(table := map[])] == db.profiles[model := p.(table := map[])];
    assert k in Emptied(db, model).profiles[model].catalog;
  }

  lemma SharedIsIdle(db: Db, model: string, pub: Pub)
    requires SharedSettled(db, model, pub) && Published(db, pub.doc.key)
    ensures Prune(Recorded(db, model, pub), pub.doc.key) == db
  {
    RecordedEffect(db, model, pub);
    assert Recorded(db, model, pub).refs == db.refs;
    assert Recorded(db, model, pub) == db;
    PruneOfPublished(db, pub.doc.key);
    assert Prune(db, pub.doc.key).assets == db.assets;
  }

  lemma OthersStayListed(db: Db, model: string, pub: Pub, other: Pub, now: int)
    requires model in db.profiles && pub.doc.key != other.doc.key
    requires Homed(db) && AssetsKnown(db, other) && ListedSettled(db, model, pub)
    ensures ListedSettled(PublishOne(db, model, other, now), model, pub)
  {
    hide ReplaceWritten, ReplacedTable;
    var r := PublishOne(db, model, other, now);
    ReplaceEffect(db, model, other.doc, other.items, other.assets, true, now);
    PublishOneShared(db, model, other, now);
    SharedStays(r, db, model, pub, other);
  }

  /** What the publications of one warm rely on, and keep. */
  ghost predicate WarmInv(db: Db, model: string, pubs: seq<Pub>) {
    && model in db.profiles && Homed(db)
    && (forall i :: 0 <= i < |pubs| ==> AssetsKnown(db, pubs[i]))
  }

  ghost predicate Unrepeated(pubs: seq<Pub>) {
    forall i, j :: 0 <= i < j < |pubs| ==> pubs[i].doc.key != pubs[j].doc.key
  }

  /** No document occurs twice, and each publication has chunks of its own document. */
  ghost predicate PubsProper(pubs: seq<Pub>) {
    Unrepeated(pubs) && forall i :: 0 <= i < |pubs| ==> ItemsBelong(pubs[i].items, pubs[i].doc.key)
  }

  lemma ProperIsUnrepeated(pubs: seq<Pub>)
    requires PubsProper(pubs)
    ensures Unrepeated(pubs)
  {
  }

  lemma PublishKeepsWarmInv(db: Db, model: string, pubs: seq<Pub>, i: nat, now: int)
    requires i < |pubs| && Unrepeated(pubs) && WarmInv(db, model, pubs)
    ensures WarmInv(PublishOne(db, model, pubs[i], now), model, pubs)
  {
    hide ReplaceWritten;
    var pub := pubs[i];
    var r := PublishOne(db, model, pub, now);
    ReplaceEffect(db, model, pub.doc, pub.items, pub.assets, true, now);
    PublishOneShared(db, model, pub, now);
    forall x | x in r.refs ensures x.asset in r.assets && r.assets[x.asset].key == x.key {
      assert Referenced(r, x.asset);
    }
    forall j | 0 <= j < |pubs| ensures AssetsKnown(r, pubs[j]) {
      if j == i {
        forall a | a in AssetNames(pub.assets) ensures a in r.assets {
          assert Ref(model, pub.doc.key, a) in r.refs;
        }
      }
    }
  }
}
