/** A warm from end to end, document by document: when a source can be listed, which assets each
    document brings, and what a complete warm leaves in the target's catalog. */
module WarmedDocuments {
  import opened Text
  import opened Store
  import opened Agreement
  import opened Reconcile
  import opened EmbeddingCache
  import opened Republication
  import opened WarmSource
  import opened Warming
  import opened PublishedRows
  import opened WarmedRows
  import CertifiedRows

  // ---- The source ----------------------------------------------------------------------------------------

  /** The listing can place the row: it names its document, its profile is a text or absent, its
      assets are a list. */
  ghost predicate Placeable(p: Payload) {
    p.doc.Str? && p.doc.s != "" && (p.chunking.Null? || p.chunking.Str?) && p.assets.Some?
  }

  /** The row is read for the workspace, and is one of this document. */
  ghost predicate RowOfDocument(t: Table, id: RowId, k: DocKey) {
    ReadFor(t, k.workspace, id) && t[id].metadata.p.doc == Str(k.doc) && CertifiedRows.ProfileName(t[id].metadata.p) == k.chunking
  }

  /** The document has a catalog row or a chunk. */
  ghost predicate Known(p: Profile, k: DocKey) {
    k in p.catalog || exists id :: RowOfDocument(p.table, id, k)
  }

  /** One of its chunks names the asset, or the publication refers to it. */
  ghost predicate Needs(db: Db, model: string, k: DocKey, a: string)
    requires model in db.profiles
  {
    var t := db.profiles[model].table;
    || (exists id :: RowOfDocument(t, id, k) && t[id].metadata.p.assets.Some? && a in t[id].metadata.p.assets.value)
    || Ref(model, k, a) in db.refs
  }

  lemma RowOfDocumentIsFrom(t: Table, workspace: string, id: RowId, k: DocKey)
    ensures From(t, workspace, id, k) <==> k.workspace == workspace && RowOfDocument(t, id, k)
  {
    ReadMeans(t, workspace, id);
  }

  lemma PlaceableIsLegible(t: Table, workspace: string, id: RowId)
    ensures LegibleAt(t, workspace, id) <==> ReadFor(t, workspace, id) && Placeable(t[id].metadata.p)
  {
    ReadMeans(t, workspace, id);
  }

  /** What the first chunks make of a document: whether it is listed at all, and its chunks' assets. */
  lemma {:induction false} EntryMeans(p: Profile, workspace: string, ids: seq<RowId>, n: nat, k: DocKey, clean: Cleaner)
    requires n <= |ids|
    ensures var e := EntryOf(p, workspace, ids, n, k, clean);
            && (e.Some? <==> (k in p.catalog && k.workspace == workspace) || exists i :: 0 <= i < n && From(p.table, workspace, ids[i], k))
            && (e.Some? ==> forall a :: a in e.value.wanted <==> SomeNames(p.table, workspace, ids, n, k, a))
  {
    hide From, Copied, FromChunk, FromCatalog;
    if n > 0 {
      EntryMeans(p, workspace, ids, n - 1, k, clean);
      OneMoreEntry(p, workspace, ids, n, k, clean);
    }
  }

  ghost predicate NamesAsset(t: Table, workspace: string, id: RowId, k: DocKey, a: string) {
    From(t, workspace, id, k) && t[id].metadata.p.assets.Some? && a in t[id].metadata.p.assets.value
  }

  ghost predicate SomeNames(t: Table, workspace: string, ids: seq<RowId>, n: nat, k: DocKey, a: string)
    requires n <= |ids|
  {
    exists i :: 0 <= i < n && NamesAsset(t, workspace, ids[i], k, a)
  }

  lemma OneMoreEntry(p: Profile, workspace: string, ids: seq<RowId>, n: nat, k: DocKey, clean: Cleaner)
    requires 0 < n <= |ids|
    ensures var e, before := EntryOf(p, workspace, ids, n, k, clean), EntryOf(p, workspace, ids, n - 1, k, clean);
            && (e.Some? <==> before.Some? || From(p.table, workspace, ids[n - 1], k))
            && (e.Some? ==> forall a :: a in e.value.wanted <==>
                  (before.Some? && a in before.value.wanted) || NamesAsset(p.table, workspace, ids[n - 1], k, a))
  {
    hide Copied, FromChunk, FromCatalog;
  }

  /** All selected rows, each of them once or more. */
  ghost predicate Selects(t: Table, workspace: string, ids: seq<RowId>) {
    forall id :: id in ids <==> ReadFor(t, workspace, id)
  }

  lemma ByIndex(t: Table, workspace: string, ids: seq<RowId>, k: DocKey)
    requires Selects(t, workspace, ids)
    ensures (exists i :: 0 <= i < |ids| && From(t, workspace, ids[i], k)) <==> k.workspace == workspace && exists id :: RowOfDocument(t, id, k)
    ensures forall a :: SomeNames(t, workspace, ids, |ids|, k, a) <==>
              k.workspace == workspace && exists id :: RowOfDocument(t, id, k) && t[id].metadata.p.assets.Some? && a in t[id].metadata.p.assets.value
  {
    hide From, ReadFor;
    forall id ensures From(t, workspace, id, k) <==> k.workspace == workspace && RowOfDocument(t, id, k) {
      RowOfDocumentIsFrom(t, workspace, id, k);
    }
    if k.workspace == workspace {
      forall id | RowOfDocument(t, id, k) ensures exists i :: 0 <= i < |ids| && ids[i] == id {
        assert id in ids;
      }
    }
  }

  /** The assets of a listed document are those its chunks name and those its publication refers to. */
  lemma WantedMeans(db: Db, model: string, workspace: string, ids: seq<RowId>, k: DocKey, clean: Cleaner)
    requires model in db.profiles && Selects(db.profiles[model].table, workspace, ids)
    ensures var e := EntryOf(db.profiles[model], workspace, ids, |ids|, k, clean);
            && (e.Some? <==> k.workspace == workspace && Known(db.profiles[model], k))
            && (e.Some? ==> forall a :: a in Wanted(db, model, k, e.value) <==> Needs(db, model, k, a))
  {
    hide EntryOf, From, RowOfDocument, NamesAsset;
    EntryMeans(db.profiles[model], workspace, ids, |ids|, k, clean);
    ByIndex(db.profiles[model].table, workspace, ids, k);
  }

  /** A source can be listed if and only if each of its rows can be placed, and each asset that a
      document of the workspace needs is there and its own. */
  lemma WhenASourceIsListable(db: Db, model: string, workspace: string, rows: seq<DocKey>, ids: seq<RowId>, clean: Cleaner)
    requires model in db.profiles && Selects(db.profiles[model].table, workspace, ids)
    requires forall k :: k in rows <==> k in CatalogKeys(db.profiles[model].catalog, workspace)
    ensures var p := db.profiles[model];
            Listable(db, model, workspace, rows, ids, clean) <==>
              && (forall id :: ReadFor(p.table, workspace, id) ==> Placeable(p.table[id].metadata.p))
              && (forall k: DocKey, a :: k.workspace == workspace && Known(p, k) && Needs(db, model, k, a) ==> a in db.assets && db.assets[a].key == k)
  {
    hide EntryOf, WarmSource.Keys, Known, Needs, Wanted, Placeable, LegibleAt, Selected;
    var p := db.profiles[model];
    forall id ensures (LegibleAt(p.table, workspace, id) <==> ReadFor(p.table, workspace, id) && Placeable(p.table[id].metadata.p))
                      && (Selected(p.table, workspace, id) <==> ReadFor(p.table, workspace, id)) {
      PlaceableIsLegible(p.table, workspace, id);
      ReadMeans(p.table, workspace, id);
    }
    if AllLegible(p.table, workspace) {
      forall i | 0 <= i < |ids| ensures LegibleAt(p.table, workspace, ids[i]) {
        assert ids[i] in ids;
      }
      KeysHaveEntries(p, workspace, rows, ids, |ids|, clean);
      forall k ensures var e := EntryOf(p, workspace, ids, |ids|, k, clean);
                       && (k in WarmSource.Keys(p, workspace, rows, ids, |ids|, clean) <==> k.workspace == workspace && Known(p, k))
                       && (e.Some? <==> k.workspace == workspace && Known(p, k))
                       && (e.Some? ==> forall a :: a in Wanted(db, model, k, e.value) <==> Needs(db, model, k, a))
      {
        WantedMeans(db, model, workspace, ids, k, clean);
      }
    }
  }

  /** Each listed document brings exactly the assets it needs, with their data. */
  lemma AssetsListed(db: Db, model: string, workspace: string, rows: seq<DocKey>, ids: seq<RowId>, clean: Cleaner, copies: seq<Copy>, d: nat)
    requires model in db.profiles && Lists(db, model, workspace, rows, ids, clean, copies) && d < |copies|
    requires Selects(db.profiles[model].table, workspace, ids)
    ensures var k := copies[d].doc.key;
            && k.workspace == workspace && Known(db.profiles[model], k)
            && (forall a :: PublishedRows.Named(copies[d].assets, a) <==> Needs(db, model, k, a))
            && (forall j :: 0 <= j < |copies[d].assets| ==>
                  var r := copies[d].assets[j]; r.id in db.assets && db.assets[r.id] == Asset(k, r.info))
  {
    hide EntryOf, WarmSource.Keys, Known, Needs, Wanted;
    var p := db.profiles[model];
    var k := WarmSource.Keys(p, workspace, rows, ids, |ids|, clean)[d];
    assert Listed(db, model, k, EntryOf(p, workspace, ids, |ids|, k, clean), copies[d]);
    WantedMeans(db, model, workspace, ids, k, clean);
    EntryBelongs(p, workspace, ids, |ids|, k, clean);
    var names := AssetNames(copies[d].assets);
    assert forall j :: 0 <= j < |copies[d].assets| ==> copies[d].assets[j].id in names;
    assert forall a :: PublishedRows.Named(copies[d].assets, a) <==> a in names;
  }

  // ---- The target ------------------------------------------------------------------------------------------

  /** A document of a warm is published: its catalog row says what the copy says, its references are the
      copy's assets. */
  ghost predicate Arrived(db: Db, model: string, pub: Pub)
    requires model in db.profiles
  {
    var c := db.profiles[model].catalog;
    && pub.doc.key in c && ShowsAs(c[pub.doc.key], pub.doc, pub.doc.time, c[pub.doc.key].public.count)
    && (forall a :: Ref(model, pub.doc.key, a) in db.refs <==> PublishedRows.Named(pub.assets, a))
    && pub.doc.key in db.sources
  }

  /** Nothing outside the published documents is touched. */
  ghost predicate OutsideKept(after: Db, before: Db, model: string, pubs: seq<Pub>, n: nat)
    requires model in after.profiles && model in before.profiles && n <= |pubs|
  {
    && after.profiles.Keys == before.profiles.Keys && (forall m :: m in before.profiles && m != model ==> after.profiles[m] == before.profiles[m])
    && after.profiles[model].status == before.profiles[model].status && after.ready == before.ready && after.workspaces == before.workspaces
    && forall k :: (forall i :: 0 <= i < n ==> pubs[i].doc.key != k) ==>
         && CertifiedRows.Found(after.profiles[model].catalog, k) == CertifiedRows.Found(before.profiles[model].catalog, k)
         && CertifiedRows.Found(after.sources, k) == CertifiedRows.Found(before.sources, k)
  }

  lemma OneArrives(db: Db, model: string, pub: Pub, now: int)
    requires model in db.profiles
    ensures Arrived(PublishOne(db, model, pub, now), model, pub)
    ensures OutsideKept(PublishOne(db, model, pub, now), db, model, [pub], 1)
    ensures forall k, a :: k != pub.doc.key ==> (Ref(model, k, a) in PublishOne(db, model, pub, now).refs <==> Ref(model, k, a) in db.refs)
  {
    hide ReplaceWritten, FiledUnder;
    PublishedCatalog(db, model, pub.doc, pub.items, pub.assets, true, now);
    PublishedShared(db, model, pub.doc, pub.items, pub.assets, true, now);
    assert [pub][0] == pub;
  }

  lemma OneMoreArrives(start: Db, db: Db, model: string, pubs: seq<Pub>, n: nat, now: int)
    requires model in start.profiles && model in db.profiles && n < |pubs| && Unrepeated(pubs)
    requires OutsideKept(db, start, model, pubs, n) && forall i :: 0 <= i < n ==> Arrived(db, model, pubs[i])
    ensures var r := PublishOne(db, model, pubs[n], now);
            OutsideKept(r, start, model, pubs, n + 1) && forall i :: 0 <= i < n + 1 ==> Arrived(r, model, pubs[i])
  {
    hide PublishOne, ShowsAs;
    OneArrives(db, model, pubs[n], now);
    assert [pubs[n]][0] == pubs[n];
    var r := PublishOne(db, model, pubs[n], now);
    forall i | 0 <= i < n ensures Arrived(r, model, pubs[i]) {
      assert pubs[i].doc.key != pubs[n].doc.key;
      assert CertifiedRows.Found(r.profiles[model].catalog, pubs[i].doc.key) == CertifiedRows.Found(db.profiles[model].catalog, pubs[i].doc.key);
      assert CertifiedRows.Found(r.sources, pubs[i].doc.key) == CertifiedRows.Found(db.sources, pubs[i].doc.key);
    }
  }

  lemma {:induction false} AllArrive(db: Db, model: string, pubs: seq<Pub>, n: nat, clock: Clock)
    requires model in db.profiles && n <= |pubs| && Unrepeated(pubs)
    ensures var r := PublishRange(db, model, pubs, 0, n, clock);
            OutsideKept(r, db, model, pubs, n) && forall i :: 0 <= i < n ==> Arrived(r, model, pubs[i])
    decreases n
  {
    hide PublishOne, OutsideKept, Arrived, Unrepeated;
    if n == 0 {
      NoneArrives(db, model, pubs);
    } else {
      AllArrive(db, model, pubs, n - 1, clock);
      OneMoreArrives(db, PublishRange(db, model, pubs, 0, n - 1, clock), model, pubs, n - 1, clock(n - 1));
    }
  }

  lemma NoneArrives(db: Db, model: string, pubs: seq<Pub>)
    requires model in db.profiles
    ensures OutsideKept(db, db, model, pubs, 0)
  {
  }

  /** After a complete warm the target is ready, each listed document has the catalog row and the
      references of its copy, and nothing else has moved. */
  lemma WarmedDocument(w: Client, model: string, copies: seq<Copy>, start: State, clock: Clock)
    requires model in start.db.profiles && forall i, j :: 0 <= i < j < |copies| ==> copies[i].doc.key != copies[j].doc.key
    ensures var d := Complete(w, model, copies, start, clock).db;
            && d.profiles[model].status == Status.Ready
            && (forall i :: 0 <= i < |copies| ==>
                  var k := copies[i].doc.key;
                  && k in d.profiles[model].catalog && k in d.sources
                  && ShowsAs(d.profiles[model].catalog[k], copies[i].doc, copies[i].doc.time, d.profiles[model].catalog[k].public.count)
                  && forall a :: Ref(model, k, a) in d.refs <==> PublishedRows.Named(copies[i].assets, a))
            && (forall k :: (forall i :: 0 <= i < |copies| ==> copies[i].doc.key != k) ==>
                  CertifiedRows.Found(d.profiles[model].catalog, k) == CertifiedRows.Found(start.db.profiles[model].catalog, k))
            && d.profiles.Keys == start.db.profiles.Keys
            && (forall m :: m in start.db.profiles && m != model ==> d.profiles[m] == start.db.profiles[m])
            && d.ready == start.db.ready && d.workspaces == start.db.workspaces
  {
    hide PublishRange, Fill, Texts, ShowsAs;
    var cache := Fill(w, start.cache, AllTexts(copies), |AllTexts(copies)|);
    var pubs := Pubs(w, cache, copies);
    AllArrive(SetStatus(start.db, model, Status.Warming), model, pubs, |copies|, clock);
    var r := PublishRange(SetStatus(start.db, model, Status.Warming), model, pubs, 0, |copies|, clock);
    forall i | 0 <= i < |copies| ensures pubs[i].doc == copies[i].doc && pubs[i].assets == copies[i].assets && Arrived(r, model, pubs[i]) {
    }
  }
}
