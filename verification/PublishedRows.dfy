/** What a publication leaves behind, row by row and column by column. */
module PublishedRows {
  import opened Text
  import opened ChunkIdentity
  import opened Store
  import opened Agreement
  import opened Republication
  import Runs

  /** A JSON member as text, or what stands in for it. */
  function Read(v: Value, otherwise: string): string {
    match v
    case Null => otherwise
    case Str(s) => s
    case Other(text) => text
  }

  /** The primary key of a chunk: its workspace, a colon, its own id. */
  function RowKey(i: Item): RowId {
    Uuid5(Read(i.payload.workspace, "local") + ":" + i.chunkId)
  }

  /** The row of a chunk carries its text, its vector, its path, and every member of its payload
      with the chunk's own id. */
  ghost predicate Holds(row: ChunkRow, i: Item) {
    && row.content == i.content && row.vector == i.vector && row.source == Read(i.payload.path, "") && row.metadata.Object?
    && var p, q := row.metadata.p, i.payload;
    && p.chunkId == Some(i.chunkId) && p.workspace == q.workspace && p.doc == q.doc && p.alias == q.alias && p.chunking == q.chunking
    && p.title == q.title && p.kind == q.kind && p.path == q.path && p.hash == q.hash && p.root == q.root && p.assets == q.assets
  }

  /** `metadata->>'workspace_id'`, `metadata->>'doc_id'` and the coalesced profile are the key's. */
  ghost predicate FiledUnder(m: Metadata, k: DocKey) {
    && m.Object? && !m.p.workspace.Null? && !m.p.doc.Null?
    && Read(m.p.workspace, "") == k.workspace && Read(m.p.doc, "") == k.doc && Read(m.p.chunking, "default") == k.chunking
  }

  lemma FiledIsGrouped(m: Metadata, k: DocKey)
    ensures FiledUnder(m, k) <==> SqlGroup(m) == Some(k)
  {
  }

  /** No later item has the key of the `n`-th. */
  ghost predicate LastOfKey(items: seq<Item>, n: nat) {
    n < |items| && forall j :: n < j < |items| ==> RowKey(items[j]) != RowKey(items[n])
  }

  lemma {:induction false} UpsertHolds(t: Table, items: seq<Item>, n: nat)
    requires LastOfKey(items, n)
    ensures RowKey(items[n]) in Upsert(t, items) && Holds(Upsert(t, items)[RowKey(items[n])], items[n])
  {
    var m := |items| - 1;
    if n < m {
      assert forall j :: n < j < m ==> items[..m][j] == items[j];
      UpsertHolds(t, items[..m], n);
      assert RowKey(items[m]) != RowKey(items[n]);
    }
  }

  lemma {:induction false} UpsertKeeps(t: Table, items: seq<Item>, id: RowId)
    requires forall j :: 0 <= j < |items| ==> RowKey(items[j]) != id
    ensures (id in Upsert(t, items) <==> id in t) && (id in t ==> Upsert(t, items)[id] == t[id])
  {
    if items != [] {
      var m := |items| - 1;
      assert forall j :: 0 <= j < m ==> items[..m][j] == items[j];
      UpsertKeeps(t, items[..m], id);
      assert RowKey(items[m]) != id;
    }
  }

  /** The table of a written publication: a row for each chunk, none of the document's former
      rows, and all other rows as they were. */
  lemma PublishedTable(db: Db, model: string, doc: Document, items: seq<Item>, assets: seq<AssetRecord>, preserve: bool, now: int)
    requires model in db.profiles
    ensures var t, u := db.profiles[model].table, ReplaceWritten(db, model, doc, items, assets, preserve, now).profiles[model].table;
            && (forall n: nat :: LastOfKey(items, n) ==> RowKey(items[n]) in u && Holds(u[RowKey(items[n])], items[n]))
            && (forall id :: (forall j :: 0 <= j < |items| ==> RowKey(items[j]) != id) ==>
                  (id in u <==> id in t && !FiledUnder(t[id].metadata, doc.key)) && (id in u ==> u[id] == t[id]))
  {
    hide ReplaceWritten, Upsert, Holds, RowKey, FiledUnder, SqlGroup;
    ReplaceEffect(db, model, doc, items, assets, preserve, now);
    var t, base := db.profiles[model].table, DeleteGroups(db.profiles[model].table, {doc.key});
    var u := ReplaceWritten(db, model, doc, items, assets, preserve, now).profiles[model].table;
    assert u == Upsert(base, items);
    forall n: nat | LastOfKey(items, n) ensures RowKey(items[n]) in u && Holds(u[RowKey(items[n])], items[n]) {
      UpsertHolds(base, items, n);
    }
    forall id | forall j :: 0 <= j < |items| ==> RowKey(items[j]) != id
      ensures (id in u <==> id in t && !FiledUnder(t[id].metadata, doc.key)) && (id in u ==> u[id] == t[id])
    {
      UpsertKeeps(base, items, id);
      if id in t {
        FiledIsGrouped(t[id].metadata, doc.key);
      }
    }
  }

  // ---- The catalog row -------------------------------------------------------------------------------

  /** Everything but the time of the last write is the same. */
  ghost predicate SameColumns(a: CatalogRow, b: CatalogRow) {
    && a.public.display == b.public.display && a.public.time == b.public.time && a.public.count == b.public.count
    && a.hash == b.hash && a.path == b.path && a.root == b.root
  }

  ghost predicate ShowsAs(row: CatalogRow, doc: Document, time: Option<int>, count: nat) {
    && row.public.display == doc.display && row.public.time == time && row.public.count == count
    && row.hash == doc.hash && row.path == doc.path && row.root == doc.root
  }

  /** The catalog of a written publication: the document's row lists it with the number of its
      stored chunks, is stamped only if something in it is new, and raises the revision of its
      list only if something public is; other rows and revisions stay. */
  lemma PublishedCatalog(db: Db, model: string, doc: Document, items: seq<Item>, assets: seq<AssetRecord>, preserve: bool, now: int)
    requires model in db.profiles
    ensures var d := ReplaceWritten(db, model, doc, items, assets, preserve, now);
            var c, e, u := db.profiles[model].catalog, d.profiles[model].catalog, d.profiles[model].table;
            var k := doc.key;
            && k in e && ShowsAs(e[k], doc, if preserve then doc.time else Some(now), |set id | id in u && FiledUnder(u[id].metadata, k)|)
            && (if k in c && SameColumns(c[k], e[k]) then e[k].updatedAt == c[k].updatedAt else e[k].updatedAt == now)
            && (forall j :: j != k ==> (j in e <==> j in c) && (j in c ==> e[j] == c[j]))
            && (forall s: Scope :: Revision(d, s) == Revision(db, s)
                  + if s == Scope(k.workspace, model, k.chunking) && !(k in c && c[k].public == e[k].public) then 1 else 0)
            && d.profiles[model].status == db.profiles[model].status && d.profiles[model].provisioned == db.profiles[model].provisioned
            && d.profiles.Keys == db.profiles.Keys && (forall m :: m in db.profiles && m != model ==> d.profiles[m] == db.profiles[m])
            && d.ready == db.ready && d.workspaces == db.workspaces
  {
    hide ReplaceWritten, Upsert, FiledUnder, SqlGroup, DeleteGroups, ReplacedTable;
    ReplaceEffect(db, model, doc, items, assets, preserve, now);
    var u := ReplaceWritten(db, model, doc, items, assets, preserve, now).profiles[model].table;
    assert (set id | id in u && FiledUnder(u[id].metadata, doc.key)) == GroupIds(u, doc.key) by {
      forall id | id in u ensures FiledUnder(u[id].metadata, doc.key) <==> InGroup(u, id, doc.key) {
        FiledIsGrouped(u[id].metadata, doc.key);
      }
    }
  }

  // ---- Shared rows ---------------------------------------------------------------------------------------

  /** Some record of the list has this id. */
  predicate Named(assets: seq<AssetRecord>, a: string) {
    exists i :: 0 <= i < |assets| && assets[i].id == a
  }

  /** The first record with an id is the one whose data is stored. */
  ghost predicate FirstNamed(assets: seq<AssetRecord>, i: nat) {
    i < |assets| && forall j :: 0 <= j < i ==> assets[j].id != assets[i].id
  }

  lemma NamedOneMore(assets: seq<AssetRecord>, n: nat)
    requires |assets| == n + 1
    ensures forall a :: Named(assets, a) <==> Named(assets[..n], a) || a == assets[n].id
  {
    assert forall i :: 0 <= i < n ==> assets[..n][i] == assets[i];
    assert Named(assets, assets[n].id);
    forall a | Named(assets[..n], a) ensures Named(assets, a) {
      var i :| 0 <= i < n && assets[..n][i].id == a;
      assert assets[i].id == a;
    }
  }

  lemma {:induction false} AssetsInserted(db: Db, model: string, k: DocKey, assets: seq<AssetRecord>)
    ensures var r := InsertAssets(db, model, k, assets);
            && (forall a :: a in r.assets <==> a in db.assets || Named(assets, a))
            && (forall a :: a in db.assets ==> r.assets[a] == db.assets[a])
            && (forall x :: x in r.refs <==> x in db.refs || (x.model == model && x.key == k && Named(assets, x.asset)))
  {
    if assets != [] {
      hide Named;
      var n := |assets| - 1;
      AssetsInserted(db, model, k, assets[..n]);
      NamedOneMore(assets, n);
    } else {
      assert forall a :: !Named(assets, a);
    }
  }

  lemma {:induction false} FirstStored(db: Db, model: string, k: DocKey, assets: seq<AssetRecord>, i: nat)
    requires FirstNamed(assets, i) && assets[i].id !in db.assets
    ensures var r := InsertAssets(db, model, k, assets); assets[i].id in r.assets && r.assets[assets[i].id] == Asset(k, assets[i].info)
  {
    var n := |assets| - 1;
    AssetsInserted(db, model, k, assets[..n]);
    if i < n {
      FirstStored(db, model, k, assets[..n], i);
    } else {
      assert !Named(assets[..n], assets[n].id);
    }
  }

  /** The source row, the assets and the references after a written publication. */
  lemma PublishedShared(db: Db, model: string, doc: Document, items: seq<Item>, assets: seq<AssetRecord>, preserve: bool, now: int)
    requires model in db.profiles
    ensures var d := ReplaceWritten(db, model, doc, items, assets, preserve, now);
            var k := doc.key;
            && k in d.sources
            && d.sources[k] == (if preserve && k in db.sources then db.sources[k]
                                else Source(doc.path, doc.root, doc.kind, match doc.hash case Some(h) => h case None => ""))
            && (forall j :: j != k ==> (j in d.sources <==> j in db.sources) && (j in db.sources ==> d.sources[j] == db.sources[j]))
            && (forall x :: x in d.refs <==> if x.model == model && x.key == k then Named(assets, x.asset) else x in db.refs)
            && (forall a :: a in d.assets ==> a in db.assets || Named(assets, a))
            && (forall a :: a in d.assets && a in db.assets ==> d.assets[a] == db.assets[a])
            && (forall i: nat :: FirstNamed(assets, i) && assets[i].id !in db.assets ==>
                  assets[i].id in d.assets && d.assets[assets[i].id] == Asset(k, assets[i].info))
            && (forall a :: a in db.assets && a !in d.assets <==>
                  a in db.assets && db.ready && db.assets[a].key == k && !(exists x :: x in d.refs && x.asset == a))
  {
    hide ReplaceRows, InsertAssets, Named, FirstNamed;
    RowsShared(db, model, doc, items, preserve, now);
    var r := ReplaceRows(db, model, doc, items, preserve, now);
    var e := DeleteRefs(r, model, {doc.key});
    AssetsInserted(e, model, doc.key, assets);
    InsertAssetsKeepsLists(e, model, doc.key, assets);
    var f := InsertAssets(e, model, doc.key, assets);
    assert Published(f, doc.key);
    PruneOfPublished(f, doc.key);
    FirstIsReferenced(f, model, doc.key, assets);
    WithinAssets(assets);
    forall i: nat | FirstNamed(assets, i) && assets[i].id !in db.assets
      ensures assets[i].id in f.assets && f.assets[assets[i].id] == Asset(doc.key, assets[i].info)
    {
      FirstStored(e, model, doc.key, assets, i);
    }
  }

  lemma WithinAssets(assets: seq<AssetRecord>)
    ensures forall i: nat :: FirstNamed(assets, i) ==> i < |assets|
  {
  }

  lemma FirstIsReferenced(f: Db, model: string, k: DocKey, assets: seq<AssetRecord>)
    requires forall x: Ref :: x.model == model && x.key == k && Named(assets, x.asset) ==> x in f.refs
    ensures forall i :: 0 <= i < |assets| ==> Named(assets, assets[i].id) && Referenced(f, assets[i].id)
  {
    forall i | 0 <= i < |assets| ensures Named(assets, assets[i].id) && Referenced(f, assets[i].id) {
      assert Ref(model, k, assets[i].id) in f.refs;
    }
  }

  lemma RowsShared(db: Db, model: string, doc: Document, items: seq<Item>, preserve: bool, now: int)
    requires model in db.profiles
    ensures var d := ReplaceRows(db, model, doc, items, preserve, now);
            && d.assets == db.assets && d.refs == db.refs && d.ready == db.ready && Published(d, doc.key)
            && d.sources == (if preserve && doc.key in db.sources then db.sources
                             else db.sources[doc.key := Source(doc.path, doc.root, doc.kind, match doc.hash case Some(h) => h case None => "")])
  {
    hide ReplacedTable, NewRow;
    ReplaceRowsEffect(db, model, doc, items, preserve, now);
    assert doc.key in ReplaceRows(db, model, doc, items, preserve, now).profiles[model].catalog;
  }

  // ---- Refusals ------------------------------------------------------------------------------------------

  /** A publication is refused, skipped or written; a warmed one is always written. */
  lemma WhetherPublished(db: Db, model: string, doc: Document, items: seq<Item>, assets: seq<AssetRecord>, preserve: bool, now: int)
    requires model in db.profiles
    ensures var p := db.profiles[model];
            var outcome := ReplaceOutcome(db, model, doc, preserve);
            && (outcome == NotReady <==> !preserve && p.status != Ready)
            && (outcome == Unchanged <==> !preserve && p.status == Ready && doc.hash.Some? && doc.key in p.catalog && p.catalog[doc.key].hash == doc.hash)
            && (outcome == Written ==> Replace(db, model, doc, items, assets, preserve, now) == ReplaceWritten(db, model, doc, items, assets, preserve, now))
            && (outcome != Written ==> Replace(db, model, doc, items, assets, preserve, now) == db)
  {
    hide ReplaceWritten;
  }

  // ---- From the chunk to its row ------------------------------------------------------------------------

  /** The key of an ingested chunk: workspace, document, profile unless it is the default one, and
      index, with colons between. */
  function ChunkKey(k: DocKey, index: nat): RowId {
    Uuid5(k.workspace + ":" + k.doc + ":" + (if k.chunking == "default" then "" else k.chunking + ":") + Decimal(index))
  }

  /** An ingested chunk as it is stored. */
  ghost predicate HoldsChunk(row: ChunkRow, doc: Document, c: Runs.Chunk) {
    && row.content == c.text && row.vector == c.vector && row.source == doc.path && row.metadata.Object?
    && var p := row.metadata.p;
    && p.workspace == Str(doc.key.workspace) && p.doc == Str(doc.key.doc) && p.chunking == Str(doc.key.chunking) && p.alias == Null
    && p.path == Str(doc.path) && p.kind == Str(doc.kind) && p.title == c.title && p.assets == Some(c.assets)
    && p.hash == (if doc.hash.Some? then Str(doc.hash.value) else Null) && p.root == (if doc.root.Some? then Str(doc.root.value) else Null)
  }

  lemma IngestKey(doc: Document, c: Runs.Chunk)
    ensures RowKey(Runs.IngestItem(doc, c)) == ChunkKey(doc.key, c.index)
    ensures forall row :: Holds(row, Runs.IngestItem(doc, c)) ==> HoldsChunk(row, doc, c)
  {
    var k := doc.key;
    var tail := Decimal(c.index);
    if k.chunking == "default" {
      assert k.workspace + ":" + (k.doc + ":" + tail) == k.workspace + ":" + k.doc + ":" + "" + tail;
    } else {
      assert k.workspace + ":" + (k.doc + ":" + k.chunking + ":" + tail) == k.workspace + ":" + k.doc + ":" + (k.chunking + ":") + tail;
    }
  }

  /** An ingestion that publishes stores each chunk's text and embedding under the chunk's key;
      chunks come with distinct indexes. */
  lemma IngestedRows(db: Db, model: string, doc: Document, chunks: seq<Runs.Chunk>, assets: seq<AssetRecord>, now: int, n: nat)
    requires model in db.profiles && ReplaceOutcome(db, model, doc, false) == Written && n < |chunks|
    requires forall j :: n < j < |chunks| ==> chunks[j].index != chunks[n].index
    ensures var t := Runs.Next(db, Runs.Ingest(model, doc, chunks, assets, now)).profiles[model].table;
            ChunkKey(doc.key, chunks[n].index) in t && HoldsChunk(t[ChunkKey(doc.key, chunks[n].index)], doc, chunks[n])
  {
    hide ReplaceWritten, Holds, HoldsChunk, RowKey, ChunkKey, FiledUnder, ReplaceOutcome;
    var items := Runs.IngestItems(doc, chunks);
    forall j | n < j < |items| ensures RowKey(items[j]) != RowKey(items[n]) {
      IngestKey(doc, chunks[j]);
      IngestKey(doc, chunks[n]);
      if RowKey(items[j]) == RowKey(items[n]) {
        KeysApart(doc.key, chunks[j].index, chunks[n].index);
      }
    }
    PublishedTable(db, model, doc, items, assets, false, now);
    WhetherPublished(db, model, doc, items, assets, false, now);
    IngestKey(doc, chunks[n]);
    assert LastOfKey(items, n);
  }

  lemma KeysApart(k: DocKey, i: nat, j: nat)
    requires ChunkKey(k, i) == ChunkKey(k, j)
    ensures i == j
  {
    var head := k.workspace + ":" + k.doc + ":" + (if k.chunking == "default" then "" else k.chunking + ":");
    assert (head + Decimal(i))[|head|..] == Decimal(i) && (head + Decimal(j))[|head|..] == Decimal(j);
    DecimalInjective(i, j);
  }
}
