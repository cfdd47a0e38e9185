/** What a warm copies: the source profile's documents of one workspace, catalog rows
    first, then documents known only from their chunks. */
module WarmSource {
  import opened Text
  import opened ChunkIdentity
  import opened Store
  import opened Agreement
  import opened Reconcile
  import opened Runs
  import opened Republication
  import opened Publication
  import opened Certification

  /** A document to be warmed: its row, its chunks without vectors, its assets. */
  datatype Copy = Copy(doc: Document, chunks: seq<Item>, assets: seq<AssetRecord>)

  /** `WHERE metadata->>'workspace_id' = $1`. */
  predicate Selected(t: Table, workspace: string, id: RowId) {
    id in t && t[id].metadata.Object? && SqlText(t[id].metadata.p.workspace) == Some(workspace)
  }

  /** The listing can make sense of a row: it names its document, its profile is a string
      or absent, its assets are a list. */
  predicate Legible(p: Payload) {
    IsText(p.doc) && !p.chunking.Other? && p.assets.Some?
  }

  predicate LegibleAt(t: Table, workspace: string, id: RowId) {
    Selected(t, workspace, id) && Legible(t[id].metadata.p)
  }

  function SourceKey(workspace: string, p: Payload): DocKey
    requires p.doc.Str?
  {
    DocKey(workspace, EffectiveChunking(p), p.doc.s)
  }

  predicate From(t: Table, workspace: string, id: RowId, k: DocKey) {
    Selected(t, workspace, id) && t[id].metadata.p.doc.Str? && SourceKey(workspace, t[id].metadata.p) == k
  }

  /** A chunk as it is passed on, its vector still to come. */
  function Copied(id: RowId, row: ChunkRow): Item
    requires row.metadata.Object?
  {
    var p := row.metadata.p;
    Item(Identity(id, p), p.(path := RowPath(row, p)), row.content, [])
  }

  function FromCatalog(k: DocKey, row: CatalogRow, clean: Cleaner): Document {
    var d := row.public.display;
    Document(k, clean(row.path, Some(d.title), d.kind), d.kind, row.hash, row.path, row.root, row.public.time)
  }

  /** A document the catalog does not know is described by its first chunk. */
  function FromChunk(k: DocKey, row: ChunkRow, clean: Cleaner): Document
    requires row.metadata.Object?
  {
    var p := row.metadata.p;
    var named := SqlText(RowPath(row, p)).Or("");
    var path := if named == "" then "Untitled document" else named;
    Document(k, clean(path, SqlText(p.title), Kind(p)), Kind(p), None, path,
             if p.root.Str? then Some(p.root.s) else None, None)
  }

  /** A document while its chunks are gathered. */
  datatype Entry = Entry(doc: Document, chunks: seq<Item>, wanted: set<string>)

  function CatalogKeys(catalog: Catalog, workspace: string): set<DocKey> {
    set k | k in catalog && k.workspace == workspace
  }

  function WithChunk(e: Option<Entry>, k: DocKey, id: RowId, row: ChunkRow, clean: Cleaner): Entry
    requires row.metadata.Object?
  {
    var start := e.Or(Entry(FromChunk(k, row, clean), [], {}));
    start.(chunks := start.chunks + [Copied(id, row)], wanted := start.wanted + row.metadata.p.assets.Or({}))
  }

  /** What the first `n` chunks make of one document. */
  function EntryOf(p: Profile, workspace: string, ids: seq<RowId>, n: nat, k: DocKey, clean: Cleaner): Option<Entry>
    requires n <= |ids|
  {
    if n == 0 then
      if k in p.catalog && k.workspace == workspace then Some(Entry(FromCatalog(k, p.catalog[k], clean), [], {})) else None
    else
      var before := EntryOf(p, workspace, ids, n - 1, k, clean);
      if From(p.table, workspace, ids[n - 1], k)
      then Some(WithChunk(before, k, ids[n - 1], p.table[ids[n - 1]], clean)) else before
  }

  /** Documents in the order of the listing: first the given catalog keys, then the keys
      of chunks in the order in which they first occur. */
  function Keys(p: Profile, workspace: string, rows: seq<DocKey>, ids: seq<RowId>, n: nat, clean: Cleaner): seq<DocKey>
    requires n <= |ids|
  {
    if n == 0 then rows
    else
      var before := Keys(p, workspace, rows, ids, n - 1, clean);
      if LegibleAt(p.table, workspace, ids[n - 1])
         && EntryOf(p, workspace, ids, n - 1, SourceKey(workspace, p.table[ids[n - 1]].metadata.p), clean).None?
      then before + [SourceKey(workspace, p.table[ids[n - 1]].metadata.p)] else before
  }

  function RefAssets(db: Db, model: string, k: DocKey): set<string> {
    set r | r in db.refs && r.model == model && r.key == k :: r.asset
  }

  function Wanted(db: Db, model: string, k: DocKey, e: Entry): set<string> {
    e.wanted + RefAssets(db, model, k)
  }

  predicate Available(db: Db, k: DocKey, assets: set<string>) {
    forall a :: a in assets ==> a in db.assets && db.assets[a].key == k
  }

  ghost predicate Records(db: Db, wanted: set<string>, records: seq<AssetRecord>) {
    && AssetNames(records) == wanted
    && forall i :: 0 <= i < |records| ==> records[i].id in db.assets && records[i].info == db.assets[records[i].id].info
  }

  /** One listed document: its entry, with the assets of the entry and of its references. */
  ghost predicate Listed(db: Db, model: string, k: DocKey, e: Option<Entry>, copy: Copy) {
    && e.Some? && copy.doc == e.value.doc && copy.chunks == e.value.chunks
    && Available(db, k, Wanted(db, model, k, e.value))
    && Records(db, Wanted(db, model, k, e.value), copy.assets)
  }

  ghost predicate AllLegible(t: Table, workspace: string) {
    forall id :: Selected(t, workspace, id) ==> LegibleAt(t, workspace, id)
  }

  /** `list_warmable_documents` as a relation: one copy for each key, in order. */
  ghost predicate Lists(db: Db, model: string, workspace: string, rows: seq<DocKey>, ids: seq<RowId>,
                        clean: Cleaner, copies: seq<Copy>)
    requires model in db.profiles
  {
    var p := db.profiles[model];
    var keys := Keys(p, workspace, rows, ids, |ids|, clean);
    && AllLegible(p.table, workspace)
    && |copies| == |keys|
    && forall i :: 0 <= i < |keys| ==>
         Listed(db, model, keys[i], EntryOf(p, workspace, ids, |ids|, keys[i], clean), copies[i])
  }

  /** A source can be listed: every selected chunk is legible and every document's assets are
      stored under it. */
  ghost predicate Listable(db: Db, model: string, workspace: string, rows: seq<DocKey>, ids: seq<RowId>, clean: Cleaner)
    requires model in db.profiles
  {
    var p := db.profiles[model];
    && AllLegible(p.table, workspace)
    && forall k :: k in Keys(p, workspace, rows, ids, |ids|, clean) ==>
         var e := EntryOf(p, workspace, ids, |ids|, k, clean);
         e.Some? && Available(db, k, Wanted(db, model, k, e.value))
  }

  function SelectedIds(t: Table, workspace: string): set<RowId> {
    set id | id in t && Selected(t, workspace, id)
  }

  // ---- The loops ---------------------------------------------------------------------

  ghost predicate Collected(p: Profile, workspace: string, ids: seq<RowId>, n: nat, clean: Cleaner, entries: map<DocKey, Entry>)
    requires n <= |ids|
  {
    forall k :: EntryOf(p, workspace, ids, n, k, clean) == if k in entries then Some(entries[k]) else None
  }

  function AddChunk(entries: map<DocKey, Entry>, k: DocKey, id: RowId, row: ChunkRow, clean: Cleaner): map<DocKey, Entry>
    requires row.metadata.Object?
  {
    entries[k := WithChunk(if k in entries then Some(entries[k]) else None, k, id, row, clean)]
  }

  lemma CollectOne(p: Profile, workspace: string, rows: seq<DocKey>, ids: seq<RowId>, n: nat, clean: Cleaner,
                   entries: map<DocKey, Entry>)
    requires n < |ids| && Collected(p, workspace, ids, n, clean, entries) && LegibleAt(p.table, workspace, ids[n])
    ensures var k := SourceKey(workspace, p.table[ids[n]].metadata.p);
            && Collected(p, workspace, ids, n + 1, clean, AddChunk(entries, k, ids[n], p.table[ids[n]], clean))
            && Keys(p, workspace, rows, ids, n + 1, clean)
               == Keys(p, workspace, rows, ids, n, clean) + (if k in entries then [] else [k])
  {
  }

  /** The loop so far: every chunk was legible and is filed under its document. */
  ghost predicate Gathered(p: Profile, workspace: string, rows: seq<DocKey>, ids: seq<RowId>, n: nat, clean: Cleaner,
                           order: seq<DocKey>, entries: map<DocKey, Entry>)
    requires n <= |ids|
  {
    && (forall j :: 0 <= j < n ==> LegibleAt(p.table, workspace, ids[j]))
    && order == Keys(p, workspace, rows, ids, n, clean)
    && Collected(p, workspace, ids, n, clean, entries)
  }

  method CollectRow(p: Profile, workspace: string, ghost rows: seq<DocKey>, ids: seq<RowId>, i: nat, clean: Cleaner,
                    order: seq<DocKey>, entries: map<DocKey, Entry>)
    returns (newOrder: seq<DocKey>, newEntries: map<DocKey, Entry>)
    requires i < |ids| && LegibleAt(p.table, workspace, ids[i])
    requires Gathered(p, workspace, rows, ids, i, clean, order, entries)
    ensures Gathered(p, workspace, rows, ids, i + 1, clean, newOrder, newEntries)
  {
    var row := p.table[ids[i]];
    var k := SourceKey(workspace, row.metadata.p);
    CollectOne(p, workspace, rows, ids, i, clean, entries);
    newOrder := order + if k in entries then [] else [k];
    newEntries := AddChunk(entries, k, ids[i], row, clean);
  }

  /** The first two loops: catalog rows, then every chunk under its document.  They end
      early at a chunk that cannot be read. */
  method Collect(p: Profile, workspace: string, rows: seq<DocKey>, ids: seq<RowId>, clean: Cleaner)
    returns (ok: bool, order: seq<DocKey>, entries: map<DocKey, Entry>)
    requires forall k :: k in rows <==> k in CatalogKeys(p.catalog, workspace)
    requires forall i :: 0 <= i < |ids| ==> Selected(p.table, workspace, ids[i])
    ensures ok <==> forall i :: 0 <= i < |ids| ==> LegibleAt(p.table, workspace, ids[i])
    ensures ok ==> Gathered(p, workspace, rows, ids, |ids|, clean, order, entries)
  {
    order, ok := rows, true;
    entries := map k | k in rows :: Entry(FromCatalog(k, p.catalog[k], clean), [], {});
    var i := 0;
    while i < |ids|
      invariant i <= |ids|
      invariant Gathered(p, workspace, rows, ids, i, clean, order, entries)
    {
      if !LegibleAt(p.table, workspace, ids[i]) {
        ok := false;
        return;
      }
      order, entries := CollectRow(p, workspace, rows, ids, i, clean, order, entries);
      i := i + 1;
    }
  }

  method ReadAssets(db: Database, k: DocKey, wanted: set<string>) returns (ok: bool, records: seq<AssetRecord>)
    ensures ok <==> Available(db.Snapshot(), k, wanted)
    ensures ok ==> Records(db.Snapshot(), wanted, records)
  {
    records := [];
    ok := forall a :: a in wanted ==> a in db.assets && db.assets[a].key == k;
    if ok {
      var order := InSomeOrder(wanted);
      var i := 0;
      while i < |order|
        invariant i == |records| <= |order|
        invariant forall j :: 0 <= j < i ==> records[j].id == order[j] && order[j] in db.assets && records[j].info == db.assets[order[j]].info
      {
        assert order[i] in (set x | x in order);
        records := records + [AssetRecord(order[i], db.assets[order[i]].info)];
        i := i + 1;
      }
      assert AssetNames(records) == (set x | x in order);
    }
  }

  lemma {:induction false} KeysHaveEntries(p: Profile, workspace: string, rows: seq<DocKey>, ids: seq<RowId>, n: nat, clean: Cleaner)
    requires n <= |ids|
    requires forall k :: k in rows <==> k in CatalogKeys(p.catalog, workspace)
    requires forall i :: 0 <= i < n ==> LegibleAt(p.table, workspace, ids[i])
    ensures forall k :: k in Keys(p, workspace, rows, ids, n, clean) <==> EntryOf(p, workspace, ids, n, k, clean).Some?
  {
    if n > 0 {
      KeysHaveEntries(p, workspace, rows, ids, n - 1, clean);
    }
  }

  /** `list_warmable_documents`.  It raises exactly when some selected chunk cannot be read
      or some document wants an asset that is not stored under it. */
  method ListWarmable(db: Database, model: string, workspace: string, rows: seq<DocKey>, ids: seq<RowId>, clean: Cleaner)
    returns (ok: bool, copies: seq<Copy>)
    requires model in db.profiles
    requires forall k :: k in rows <==> k in CatalogKeys(db.profiles[model].catalog, workspace)
    requires forall id :: id in ids <==> id in SelectedIds(db.profiles[model].table, workspace)
    ensures ok <==> Listable(db.Snapshot(), model, workspace, rows, ids, clean)
    ensures ok ==> Lists(db.Snapshot(), model, workspace, rows, ids, clean, copies)
  {
    hide Keys, EntryOf, Records, Available, WithChunk;
    var p := db.profiles[model];
    LegibleByIndex(p.table, workspace, ids);
    var order, entries;
    ok, order, entries := Collect(p, workspace, rows, ids, clean);
    copies := [];
    if !ok {
      return;
    }
    KeysHaveEntries(p, workspace, rows, ids, |ids|, clean);
    var i := 0;
    while i < |order|
      invariant i == |copies| <= |order|
      invariant forall j :: 0 <= j < i ==> Listed(db.Snapshot(), model, order[j], EntryOf(p, workspace, ids, |ids|, order[j], clean), copies[j])
    {
      var k := order[i];
      assert EntryOf(p, workspace, ids, |ids|, k, clean) == Some(entries[k]);
      var wanted := entries[k].wanted + set r | r in db.refs && r.model == model && r.key == k :: r.asset;
      assert wanted == Wanted(db.Snapshot(), model, k, entries[k]);
      var found, records := ReadAssets(db, k, wanted);
      if !found {
        ok := false;
        assert k in order && EntryOf(p, workspace, ids, |ids|, k, clean).Some?;
        return;
      }
      copies := copies + [Copy(entries[k].doc, entries[k].chunks, records)];
      i := i + 1;
    }
  }

  lemma LegibleByIndex(t: Table, workspace: string, ids: seq<RowId>)
    requires forall id :: id in ids <==> id in SelectedIds(t, workspace)
    ensures forall i :: 0 <= i < |ids| ==> Selected(t, workspace, ids[i])
    ensures AllLegible(t, workspace) <==> forall i :: 0 <= i < |ids| ==> LegibleAt(t, workspace, ids[i])
  {
    forall i | 0 <= i < |ids| ensures Selected(t, workspace, ids[i]) {
      assert ids[i] in SelectedIds(t, workspace);
    }
    forall id | Selected(t, workspace, id) ensures id in ids {
      assert id in SelectedIds(t, workspace);
    }
  }

  // ---- What a listing contains -----------------------------------------------------------

  ghost predicate PlainWorkspace(t: Table, workspace: string) {
    ColonFree(workspace) && forall id :: Selected(t, workspace, id) ==> t[id].metadata.p.workspace.Str?
  }

  /** A copied chunk still counts for its document exactly if its chunking profile is not the
      empty string. */
  lemma CopiedBelongs(t: Table, workspace: string, id: RowId, k: DocKey)
    requires LegibleAt(t, workspace, id) && From(t, workspace, id, k)
    ensures ItemsBelong([Copied(id, t[id])], k) <==> t[id].metadata.p.chunking != Str("")
  {
    var c := Copied(id, t[id]);
    assert [c][0] == c;
    assert SqlGroup(ItemRow(c).metadata) == Some(k) <==> t[id].metadata.p.chunking != Str("");
  }

  /** None of a document's first `n` selected rows stores an empty chunking profile. */
  ghost predicate Named(t: Table, workspace: string, ids: seq<RowId>, n: nat, k: DocKey)
    requires n <= |ids|
  {
    forall i :: 0 <= i < n && From(t, workspace, ids[i], k) ==> t[ids[i]].metadata.p.chunking != Str("")
  }

  lemma {:induction false} EntryBelongs(p: Profile, workspace: string, ids: seq<RowId>, n: nat, k: DocKey, clean: Cleaner)
    requires n <= |ids| && AllLegible(p.table, workspace)
    ensures match EntryOf(p, workspace, ids, n, k, clean)
            case Some(e) => e.doc.key == k && k.workspace == workspace
                            && (ItemsBelong(e.chunks, k) <==> Named(p.table, workspace, ids, n, k))
            case None => Named(p.table, workspace, ids, n, k)
  {
    hide Copied, Named, ItemsBelong;
    if n == 0 {
      NoChunksBelong(p.table, workspace, ids, k);
    } else {
      EntryBelongs(p, workspace, ids, n - 1, k, clean);
      OneMoreNamed(p.table, workspace, ids, n, k);
      if From(p.table, workspace, ids[n - 1], k) {
        var c := Copied(ids[n - 1], p.table[ids[n - 1]]);
        CopiedBelongs(p.table, workspace, ids[n - 1], k);
        match EntryOf(p, workspace, ids, n - 1, k, clean)
        case Some(e) => BelongBoth(e.chunks, c, k);
        case None =>
          NoChunksBelong(p.table, workspace, ids, k);
          BelongBoth([], c, k);
      }
    }
  }

  lemma NoChunksBelong(t: Table, workspace: string, ids: seq<RowId>, k: DocKey)
    ensures ItemsBelong([], k) && Named(t, workspace, ids, 0, k)
  {
  }

  lemma OneMoreNamed(t: Table, workspace: string, ids: seq<RowId>, n: nat, k: DocKey)
    requires 0 < n <= |ids|
    ensures Named(t, workspace, ids, n, k) <==>
              Named(t, workspace, ids, n - 1, k) && (From(t, workspace, ids[n - 1], k) ==> t[ids[n - 1]].metadata.p.chunking != Str(""))
  {
    hide From;
  }

  lemma BelongBoth(chunks: seq<Item>, c: Item, k: DocKey)
    ensures ItemsBelong(chunks + [c], k) <==> ItemsBelong(chunks, k) && ItemsBelong([c], k)
  {
    assert (chunks + [c])[|chunks|] == c && [c][0] == c;
    assert forall i :: 0 <= i < |chunks| ==> (chunks + [c])[i] == chunks[i];
  }

  /** A copied chunk keeps its identity, so it still belongs to its document. */
  lemma CopiedSound(owner: Owner, t: Table, workspace: string, id: RowId, k: DocKey)
    requires LegibleAt(t, workspace, id) && From(t, workspace, id, k) && RowSound(owner, id, t[id].metadata)
    requires PlainWorkspace(t, workspace)
    ensures ItemsSound(owner, [Copied(id, t[id])], k)
  {
  }

  lemma {:induction false} EntrySound(owner: Owner, p: Profile, workspace: string, ids: seq<RowId>, n: nat, k: DocKey, clean: Cleaner)
    requires n <= |ids| && TableSound(owner, p.table) && PlainWorkspace(p.table, workspace) && AllLegible(p.table, workspace)
    ensures var e := EntryOf(p, workspace, ids, n, k, clean);
            e.Some? ==> e.value.doc.key == k && k.workspace == workspace && ItemsSound(owner, e.value.chunks, k)
  {
    if n > 0 {
      EntrySound(owner, p, workspace, ids, n - 1, k, clean);
      if From(p.table, workspace, ids[n - 1], k) {
        CopiedSound(owner, p.table, workspace, ids[n - 1], k);
      }
    }
  }

  lemma {:induction false} KeysDistinct(p: Profile, workspace: string, rows: seq<DocKey>, ids: seq<RowId>, n: nat, clean: Cleaner)
    requires n <= |ids| && Distinct(rows)
    requires forall k :: k in rows <==> k in CatalogKeys(p.catalog, workspace)
    requires forall i :: 0 <= i < |ids| ==> LegibleAt(p.table, workspace, ids[i])
    ensures Distinct(Keys(p, workspace, rows, ids, n, clean))
  {
    if n > 0 {
      KeysDistinct(p, workspace, rows, ids, n - 1, clean);
      KeysHaveEntries(p, workspace, rows, ids, n - 1, clean);
    }
  }

  predicate Rising(r: seq<nat>, n: nat) {
    && (forall a :: 0 <= a < |r| ==> r[a] < n)
    && forall a, b :: 0 <= a < b < |r| ==> r[a] < r[b]
  }

  /** The selected rows that belong to one document, in order. */
  function RowsOf(t: Table, workspace: string, ids: seq<RowId>, n: nat, k: DocKey): seq<nat>
    requires n <= |ids|
  {
    if n == 0 then []
    else RowsOf(t, workspace, ids, n - 1, k) + (if From(t, workspace, ids[n - 1], k) then [n - 1] else [])
  }

  lemma {:induction false} RowsAreThose(t: Table, workspace: string, ids: seq<RowId>, n: nat, k: DocKey)
    requires n <= |ids|
    ensures Rising(RowsOf(t, workspace, ids, n, k), n)
    ensures forall i: nat :: i in RowsOf(t, workspace, ids, n, k) <==> (i < n && From(t, workspace, ids[i], k))
  {
    hide From;
    if n > 0 {
      RowsAreThose(t, workspace, ids, n - 1, k);
    }
  }

  /** The rows at some positions, as they are passed on. */
  predicate CopiesAt(chunks: seq<Item>, t: Table, ids: seq<RowId>, r: seq<nat>) {
    |chunks| == |r|
    && forall a :: 0 <= a < |r| ==> r[a] < |ids| && ids[r[a]] in t && t[ids[r[a]]].metadata.Object?
                                    && chunks[a] == Copied(ids[r[a]], t[ids[r[a]]])
  }

  lemma OneCopyMore(chunks: seq<Item>, t: Table, ids: seq<RowId>, r: seq<nat>, i: nat)
    requires CopiesAt(chunks, t, ids, r) && i < |ids| && ids[i] in t && t[ids[i]].metadata.Object?
    ensures CopiesAt(chunks + [Copied(ids[i], t[ids[i]])], t, ids, r + [i])
  {
    hide Copied;
  }

  /** A listed document's chunks are the copies of exactly its rows, one for each, in order. */
  lemma {:induction false} ChunksAreRows(p: Profile, workspace: string, ids: seq<RowId>, n: nat, k: DocKey, clean: Cleaner)
    requires n <= |ids|
    ensures match EntryOf(p, workspace, ids, n, k, clean)
            case Some(e) => CopiesAt(e.chunks, p.table, ids, RowsOf(p.table, workspace, ids, n, k))
            case None => RowsOf(p.table, workspace, ids, n, k) == []
  {
    hide Copied, FromCatalog, FromChunk, CopiesAt;
    if n == 0 {
      NoCopies(p.table, ids);
    } else {
      ChunksAreRows(p, workspace, ids, n - 1, k, clean);
      var r := RowsOf(p.table, workspace, ids, n - 1, k);
      assert r + [] == r && [] + [n - 1] == [n - 1];
      if From(p.table, workspace, ids[n - 1], k) {
        match EntryOf(p, workspace, ids, n - 1, k, clean)
        case Some(e) => OneCopyMore(e.chunks, p.table, ids, r, n - 1);
        case None =>
          NoCopies(p.table, ids);
          OneCopyMore([], p.table, ids, [], n - 1);
      }
    }
  }

  lemma NoCopies(t: Table, ids: seq<RowId>)
    ensures CopiesAt([], t, ids, [])
  {
  }

  /** Each selected row is listed at exactly one place: under one listed document, and there
      once. */
  lemma EveryRowHasOnePlace(p: Profile, workspace: string, rows: seq<DocKey>, ids: seq<RowId>, clean: Cleaner, i: nat)
      returns (d: nat, a: nat)
    requires i < |ids| && Distinct(rows)
    requires forall k :: k in rows <==> k in CatalogKeys(p.catalog, workspace)
    requires forall j :: 0 <= j < |ids| ==> LegibleAt(p.table, workspace, ids[j])
    ensures forall e: nat, b: nat :: ListedAt(p, workspace, rows, ids, clean, i, e, b) <==> (e == d && b == a)
  {
    var keys := Keys(p, workspace, rows, ids, |ids|, clean);
    var k := SourceKey(workspace, p.table[ids[i]].metadata.p);
    KeysDistinct(p, workspace, rows, ids, |ids|, clean);
    ListedKey(p, workspace, rows, ids, clean, i);
    d :| d < |keys| && keys[d] == k;
    a := Position(p, workspace, ids, i, k);
    forall e: nat, b: nat
      ensures ListedAt(p, workspace, rows, ids, clean, i, e, b) <==> (e == d && b == a)
    {
      if ListedAt(p, workspace, rows, ids, clean, i, e, b) {
        RowsAreThose(p.table, workspace, ids, |ids|, keys[e]);
        RowsAreThose(p.table, workspace, ids, |ids|, k);
      }
    }
  }

  /** Row `i` is chunk `b` of the document listed at `e`. */
  predicate ListedAt(p: Profile, workspace: string, rows: seq<DocKey>, ids: seq<RowId>, clean: Cleaner, i: nat, e: nat, b: nat) {
    var keys := Keys(p, workspace, rows, ids, |ids|, clean);
    e < |keys|
    && b < |RowsOf(p.table, workspace, ids, |ids|, keys[e])|
    && RowsOf(p.table, workspace, ids, |ids|, keys[e])[b] == i
  }

  lemma Position(p: Profile, workspace: string, ids: seq<RowId>, i: nat, k: DocKey) returns (a: nat)
    requires i < |ids| && From(p.table, workspace, ids[i], k)
    ensures a < |RowsOf(p.table, workspace, ids, |ids|, k)| && RowsOf(p.table, workspace, ids, |ids|, k)[a] == i
  {
    RowsAreThose(p.table, workspace, ids, |ids|, k);
    assert i in RowsOf(p.table, workspace, ids, |ids|, k);
    a :| 0 <= a < |RowsOf(p.table, workspace, ids, |ids|, k)| && RowsOf(p.table, workspace, ids, |ids|, k)[a] == i;
  }

  lemma ListedKey(p: Profile, workspace: string, rows: seq<DocKey>, ids: seq<RowId>, clean: Cleaner, i: nat)
    requires i < |ids| && LegibleAt(p.table, workspace, ids[i])
    requires forall k :: k in rows <==> k in CatalogKeys(p.catalog, workspace)
    requires forall j :: 0 <= j < |ids| ==> LegibleAt(p.table, workspace, ids[j])
    ensures SourceKey(workspace, p.table[ids[i]].metadata.p) in Keys(p, workspace, rows, ids, |ids|, clean)
    ensures From(p.table, workspace, ids[i], SourceKey(workspace, p.table[ids[i]].metadata.p))
  {
    var k := SourceKey(workspace, p.table[ids[i]].metadata.p);
    KeysHaveEntries(p, workspace, rows, ids, |ids|, clean);
    assert EntryOf(p, workspace, ids, i + 1, k, clean).Some?;
    EntryStays(p, workspace, ids, i + 1, |ids|, k, clean);
  }

  function ChunksAt(p: Profile, workspace: string, ids: seq<RowId>, n: nat, k: DocKey, clean: Cleaner): nat
    requires n <= |ids|
  {
    match EntryOf(p, workspace, ids, n, k, clean)
    case Some(e) => |e.chunks|
    case None => 0
  }

  /** Chunks gathered for the first `j` of some documents. */
  function Total(p: Profile, workspace: string, ids: seq<RowId>, n: nat, keys: seq<DocKey>, j: nat, clean: Cleaner): nat
    requires n <= |ids| && j <= |keys|
  {
    if j == 0 then 0
    else Total(p, workspace, ids, n, keys, j - 1, clean) + ChunksAt(p, workspace, ids, n, keys[j - 1], clean)
  }

  lemma {:induction false} TotalOneMore(p: Profile, workspace: string, ids: seq<RowId>, n: nat, keys: seq<DocKey>, j: nat, clean: Cleaner)
    requires 0 < n <= |ids| && j <= |keys| && Distinct(keys) && LegibleAt(p.table, workspace, ids[n - 1])
    ensures Total(p, workspace, ids, n, keys, j, clean) == Total(p, workspace, ids, n - 1, keys, j, clean)
              + (if SourceKey(workspace, p.table[ids[n - 1]].metadata.p) in keys[..j] then 1 else 0)
  {
    if j > 0 {
      TotalOneMore(p, workspace, ids, n, keys, j - 1, clean);
      assert keys[..j] == keys[..j - 1] + [keys[j - 1]];
    }
  }

  lemma {:induction false} NothingYet(p: Profile, workspace: string, ids: seq<RowId>, keys: seq<DocKey>, j: nat, clean: Cleaner)
    requires j <= |keys|
    ensures Total(p, workspace, ids, 0, keys, j, clean) == 0
  {
    if j > 0 {
      NothingYet(p, workspace, ids, keys, j - 1, clean);
    }
  }

  lemma {:induction false} EntryStays(p: Profile, workspace: string, ids: seq<RowId>, m: nat, n: nat, k: DocKey, clean: Cleaner)
    requires m <= n <= |ids| && EntryOf(p, workspace, ids, m, k, clean).Some?
    ensures EntryOf(p, workspace, ids, n, k, clean).Some?
    decreases n - m
  {
    if m < n {
      EntryStays(p, workspace, ids, m, n - 1, k, clean);
    }
  }

  /** No chunk is lost and none is listed twice: the listed chunks are as many as the
      selected rows. */
  lemma {:induction false} EveryChunkOnce(p: Profile, workspace: string, rows: seq<DocKey>, ids: seq<RowId>, n: nat, clean: Cleaner)
    requires n <= |ids| && Distinct(rows)
    requires forall k :: k in rows <==> k in CatalogKeys(p.catalog, workspace)
    requires forall i :: 0 <= i < |ids| ==> LegibleAt(p.table, workspace, ids[i])
    ensures var keys := Keys(p, workspace, rows, ids, |ids|, clean);
            Total(p, workspace, ids, n, keys, |keys|, clean) == n
  {
    hide EntryOf, Keys, Total, LegibleAt, From, SourceKey;
    var keys := Keys(p, workspace, rows, ids, |ids|, clean);
    if n == 0 {
      NothingYet(p, workspace, ids, keys, |keys|, clean);
    } else {
      EveryChunkOnce(p, workspace, rows, ids, n - 1, clean);
      KeysDistinct(p, workspace, rows, ids, |ids|, clean);
      ListedKey(p, workspace, rows, ids, clean, n - 1);
      TotalOneMore(p, workspace, ids, n, keys, |keys|, clean);
      assert keys[..|keys|] == keys;
    }
  }
}
