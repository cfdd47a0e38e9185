/** A warm from end to end: each selected row of the source comes back in the target with its own
    text and the cached vector of that text, and each document with its own catalog row. */
module WarmedRows {
  import opened Text
  import opened Store
  import opened Agreement
  import opened Reconcile
  import opened EmbeddingCache
  import opened Republication
  import opened WarmSource
  import opened WarmTables
  import opened Warming
  import opened PublishedRows
  import CertifiedRows
  import Certification

  // ---- What is listed ----------------------------------------------------------------------------------

  /** A chunk as it is listed: text and id of its row, and the payload with the path of the row. */
  ghost predicate Copies(id: RowId, row: ChunkRow, c: Item) {
    && row.metadata.Object? && c.content == row.content
    && var p, q := row.metadata.p, c.payload;
    && c.chunkId == (match p.chunkId case Some(own) => own case None => IdText(id))
    && q.path == CertifiedRows.PathOf(row, p)
    && q.workspace == p.workspace && q.doc == p.doc && q.alias == p.alias && q.chunking == p.chunking && q.chunkId == p.chunkId
    && q.title == p.title && q.kind == p.kind && q.hash == p.hash && q.root == p.root && q.assets == p.assets
  }

  /** A row is read for a workspace: it is an object that names it. */
  ghost predicate ReadFor(t: Table, workspace: string, id: RowId) {
    id in t && t[id].metadata.Object? && !t[id].metadata.p.workspace.Null? && Read(t[id].metadata.p.workspace, "") == workspace
  }

  lemma ReadMeans(t: Table, workspace: string, id: RowId)
    ensures ReadFor(t, workspace, id) <==> Selected(t, workspace, id)
  {
  }

  /** Every row that is read for the workspace is listed: as a chunk of the document it names,
      under the profile it names or the default one. */
  lemma RowIsListed(db: Db, model: string, workspace: string, rows: seq<DocKey>, ids: seq<RowId>, clean: Cleaner, copies: seq<Copy>, n: nat)
      returns (d: nat, a: nat)
    requires model in db.profiles && Lists(db, model, workspace, rows, ids, clean, copies) && n < |ids|
    requires Certification.Distinct(rows) && forall k :: k in rows <==> k in CatalogKeys(db.profiles[model].catalog, workspace)
    requires forall id :: id in ids <==> ReadFor(db.profiles[model].table, workspace, id)
    ensures ids[n] in db.profiles[model].table
    ensures var row := db.profiles[model].table[ids[n]];
            && d < |copies| && a < |copies[d].chunks| && Copies(ids[n], row, copies[d].chunks[a])
            && row.metadata.p.doc.Str?
            && copies[d].doc.key == DocKey(workspace, CertifiedRows.ProfileName(row.metadata.p), row.metadata.p.doc.s)
  {
    var p := db.profiles[model];
    assert ids[n] in ids;
    forall i | 0 <= i < |ids| ensures LegibleAt(p.table, workspace, ids[i]) {
      assert ids[i] in ids;
      ReadMeans(p.table, workspace, ids[i]);
    }
    d, a := EveryRowHasOnePlace(p, workspace, rows, ids, clean, n);
    assert ListedAt(p, workspace, rows, ids, clean, n, d, a);
    var k := WarmSource.Keys(p, workspace, rows, ids, |ids|, clean)[d];
    ChunksAreRows(p, workspace, ids, |ids|, k, clean);
    RowsAreThose(p.table, workspace, ids, |ids|, k);
    EntryBelongs(p, workspace, ids, |ids|, k, clean);
    assert Listed(db, model, k, EntryOf(p, workspace, ids, |ids|, k, clean), copies[d]);
    CopiedMeans(ids[n], p.table[ids[n]]);
  }

  lemma CopiedMeans(id: RowId, row: ChunkRow)
    requires row.metadata.Object?
    ensures Copies(id, row, Copied(id, row))
  {
  }

  /** A document as it is listed: from its catalog row. */
  ghost predicate FromRow(doc: Document, k: DocKey, row: CatalogRow, clean: Cleaner) {
    && doc.key == k && doc.kind == row.public.display.kind && doc.hash == row.hash && doc.path == row.path && doc.root == row.root
    && doc.time == row.public.time && doc.display == clean(row.path, Some(row.public.display.title), row.public.display.kind)
  }

  /** Or from its first chunk, with hash and time unknown. */
  ghost predicate FromFirst(doc: Document, k: DocKey, row: ChunkRow, clean: Cleaner) {
    && row.metadata.Object? && doc.key == k && doc.hash == None && doc.time == None
    && var p := row.metadata.p;
    && doc.kind == (match p.kind case Str(s) => s case _ => "unknown")
    && doc.path == (var named := Read(CertifiedRows.PathOf(row, p), ""); if named == "" then "Untitled document" else named)
    && doc.root == (match p.root case Str(s) => Some(s) case _ => None)
    && doc.display == clean(doc.path, match p.title case Null => None case Str(s) => Some(s) case Other(text) => Some(text), doc.kind)
  }

  /** The `m`-th row is the first of its document. */
  ghost predicate FirstOf(t: Table, workspace: string, ids: seq<RowId>, m: nat, k: DocKey) {
    m < |ids| && From(t, workspace, ids[m], k) && forall i :: 0 <= i < m ==> !From(t, workspace, ids[i], k)
  }

  lemma DocumentStays(p: Profile, workspace: string, ids: seq<RowId>, n: nat, k: DocKey, clean: Cleaner)
    requires 0 < n <= |ids| && EntryOf(p, workspace, ids, n - 1, k, clean).Some?
    ensures EntryOf(p, workspace, ids, n, k, clean).Some?
    ensures EntryOf(p, workspace, ids, n, k, clean).value.doc == EntryOf(p, workspace, ids, n - 1, k, clean).value.doc
  {
    hide Copied, FromChunk, FromCatalog;
  }

  lemma DocumentBegins(p: Profile, workspace: string, ids: seq<RowId>, n: nat, k: DocKey, clean: Cleaner)
    requires 0 < n <= |ids| && EntryOf(p, workspace, ids, n - 1, k, clean).None? && EntryOf(p, workspace, ids, n, k, clean).Some?
    ensures FirstOf(p.table, workspace, ids, n - 1, k) && !(k in p.catalog && k.workspace == workspace)
    ensures FromFirst(EntryOf(p, workspace, ids, n, k, clean).value.doc, k, p.table[ids[n - 1]], clean)
  {
    hide Copied, FromChunk, FromCatalog, From, FromFirst, CopiesAt, Rising;
    ChunksAreRows(p, workspace, ids, n - 1, k, clean);
    RowsAreThose(p.table, workspace, ids, n - 1, k);
    FirstMeans(k, p.table, workspace, ids[n - 1], clean);
    if k in p.catalog && k.workspace == workspace {
      EntryStays(p, workspace, ids, 0, n - 1, k, clean);
    }
  }

  lemma {:induction false} DocumentListed(p: Profile, workspace: string, ids: seq<RowId>, n: nat, k: DocKey, clean: Cleaner)
    requires n <= |ids| && EntryOf(p, workspace, ids, n, k, clean).Some?
    ensures var doc := EntryOf(p, workspace, ids, n, k, clean).value.doc;
            if k in p.catalog && k.workspace == workspace then FromRow(doc, k, p.catalog[k], clean)
            else exists m: nat :: m < n && FirstOf(p.table, workspace, ids, m, k) && FromFirst(doc, k, p.table[ids[m]], clean)
  {
    hide From, FromFirst, FromRow, WithChunk;
    if n == 0 {
      RowMeans(k, p.catalog, clean);
    } else if EntryOf(p, workspace, ids, n - 1, k, clean).Some? {
      DocumentListed(p, workspace, ids, n - 1, k, clean);
      DocumentStays(p, workspace, ids, n, k, clean);
    } else {
      DocumentBegins(p, workspace, ids, n, k, clean);
    }
  }

  lemma FirstMeans(k: DocKey, t: Table, workspace: string, id: RowId, clean: Cleaner)
    requires From(t, workspace, id, k)
    ensures FromFirst(FromChunk(k, t[id], clean), k, t[id], clean)
  {
  }

  lemma RowMeans(k: DocKey, c: Catalog, clean: Cleaner)
    ensures k in c ==> FromRow(FromCatalog(k, c[k], clean), k, c[k], clean)
  {
  }

  // ---- What arrives --------------------------------------------------------------------------------------

  /** No other chunk of this or a later document has the key of chunk `j` of document `i`. */
  ghost predicate LastWithKey(copies: seq<Copy>, i: nat, j: nat) {
    && i < |copies| && j < |copies[i].chunks|
    && (forall b :: j < b < |copies[i].chunks| ==> RowKey(copies[i].chunks[b]) != RowKey(copies[i].chunks[j]))
    && (forall a, b :: i < a < |copies| && 0 <= b < |copies[a].chunks| ==> RowKey(copies[a].chunks[b]) != RowKey(copies[i].chunks[j]))
  }

  /** No later document is the one SQL files the chunk under. */
  ghost predicate KeptFrom(copies: seq<Copy>, i: nat, j: nat) {
    && i < |copies| && j < |copies[i].chunks|
    && forall a :: i < a < |copies| ==> !FiledUnder(Object(copies[i].chunks[j].payload), copies[a].doc.key)
  }

  lemma {:induction false} StaysInTable(t: Table, pubs: seq<Pub>, i: nat, n: nat, j: nat)
    requires i < n <= |pubs| && LastOfKey(pubs[i].items, j)
    requires forall a, b :: i < a < n && 0 <= b < |pubs[a].items| ==> RowKey(pubs[a].items[b]) != RowKey(pubs[i].items[j])
    requires forall a :: i < a < n ==> !FiledUnder(Object(pubs[i].items[j].payload), pubs[a].doc.key)
    ensures var u := TableAfter(t, pubs, n);
            RowKey(pubs[i].items[j]) in u && Holds(u[RowKey(pubs[i].items[j])], pubs[i].items[j])
    decreases n
  {
    hide RowKey, Upsert, DeleteGroups, FiledUnder;
    var before := TableAfter(t, pubs, n - 1);
    var base := DeleteGroups(before, {pubs[n - 1].doc.key});
    var item := pubs[i].items[j];
    if n == i + 1 {
      UpsertHolds(base, pubs[i].items, j);
    } else {
      StaysInTable(t, pubs, i, n - 1, j);
      UpsertKeeps(base, pubs[n - 1].items, RowKey(item));
      HeldStays(before, RowKey(item), item, pubs[n - 1].doc.key);
    }
  }

  lemma HeldStays(t: Table, id: RowId, i: Item, k: DocKey)
    requires id in t && Holds(t[id], i) && !FiledUnder(Object(i.payload), k)
    ensures id in DeleteGroups(t, {k}) && DeleteGroups(t, {k})[id] == t[id]
  {
    FiledIsGrouped(t[id].metadata, k);
    FiledIsGrouped(Object(i.payload), k);
  }

  lemma CompleteTable(w: Client, model: string, copies: seq<Copy>, start: State, clock: Clock)
    requires model in start.db.profiles
    ensures var done := Complete(w, model, copies, start, clock);
            && done.cache == Fill(w, start.cache, AllTexts(copies), |AllTexts(copies)|)
            && done.db.profiles[model].table == TableAfter(start.db.profiles[model].table, Pubs(w, done.cache, copies), |copies|)
  {
    hide PublishRange, TableAfter, Fill, Texts, Pubs;
    var cache := Fill(w, start.cache, AllTexts(copies), |AllTexts(copies)|);
    RangeTable(SetStatus(start.db, model, Status.Warming), model, Pubs(w, cache, copies), |copies|, clock);
  }

  lemma EmbeddedChunk(w: Client, cache: Cache, copies: seq<Copy>, i: nat, j: nat)
    requires i < |copies| && j < |copies[i].chunks|
    ensures var pubs, c := Pubs(w, cache, copies), copies[i].chunks[j];
            && |pubs| == |copies| && pubs[i].doc == copies[i].doc && |pubs[i].items| == |copies[i].chunks|
            && RowKey(pubs[i].items[j]) == RowKey(c) && pubs[i].items[j].payload == c.payload
            && (w.key(c.content) in cache ==> pubs[i].items[j] == c.(vector := cache[w.key(c.content)]))
  {
    hide RowKey;
    SameKey(copies[i].chunks[j], Pubs(w, cache, copies)[i].items[j]);
  }

  lemma TextIsCached(w: Client, cache: Cache, copies: seq<Copy>, i: nat, j: nat)
    requires i < |copies| && j < |copies[i].chunks|
    ensures w.key(copies[i].chunks[j].content) in Fill(w, cache, AllTexts(copies), |AllTexts(copies)|)
  {
    hide Fill, EmbeddingCache.Keys, Texts;
    var all := AllTexts(copies);
    TextIsThere(copies, i, j);
    var n :| 0 <= n < |all| && all[n] == copies[i].chunks[j].content;
    FillKeys(w, cache, all, |all|);
    KeyIn(w, all, |all|, n);
  }

  /** After a complete warm each such chunk is stored with its text and the vector that the cache
      holds for that text. */
  lemma WarmedRow(w: Client, model: string, copies: seq<Copy>, start: State, clock: Clock, i: nat, j: nat)
    requires model in start.db.profiles && LastWithKey(copies, i, j) && KeptFrom(copies, i, j)
    ensures var done := Complete(w, model, copies, start, clock);
            var t, c := done.db.profiles[model].table, copies[i].chunks[j];
            && w.key(c.content) in done.cache && RowKey(c) in t
            && Holds(t[RowKey(c)], c.(vector := done.cache[w.key(c.content)]))
  {
    hide RowKey, FiledUnder, Holds, Complete, TableAfter, Fill, Texts, Pubs, AllTexts;
    CompleteTable(w, model, copies, start, clock);
    TextIsCached(w, start.cache, copies, i, j);
    var cache := Complete(w, model, copies, start, clock).cache;
    forall a: nat, b: nat | a < |copies| && b < |copies[a].chunks|
      ensures a < |Pubs(w, cache, copies)| && b < |Pubs(w, cache, copies)[a].items|
      ensures RowKey(Pubs(w, cache, copies)[a].items[b]) == RowKey(copies[a].chunks[b])
    {
      EmbeddedChunk(w, cache, copies, a, b);
    }
    EmbeddedChunk(w, cache, copies, i, j);
    PubsShape(w, cache, copies);
    StaysInTable(start.db.profiles[model].table, Pubs(w, cache, copies), i, |copies|, j);
  }

  lemma PubsShape(w: Client, cache: Cache, copies: seq<Copy>)
    ensures |Pubs(w, cache, copies)| == |copies|
    ensures forall a :: 0 <= a < |copies| ==>
              Pubs(w, cache, copies)[a].doc == copies[a].doc && |Pubs(w, cache, copies)[a].items| == |copies[a].chunks|
  {
  }

  lemma SameKey(a: Item, b: Item)
    requires b == a.(vector := b.vector)
    ensures RowKey(a) == RowKey(b)
  {
  }

  lemma {:induction false} KeyIn(w: Client, texts: seq<string>, m: nat, n: nat)
    requires n < m <= |texts|
    ensures w.key(texts[n]) in EmbeddingCache.Keys(w, texts, m)
  {
    if n < m - 1 {
      KeyIn(w, texts, m - 1, n);
    }
  }

  lemma TextIsThere(copies: seq<Copy>, i: nat, j: nat)
    requires i < |copies| && j < |copies[i].chunks|
    ensures exists n :: 0 <= n < |AllTexts(copies)| && AllTexts(copies)[n] == copies[i].chunks[j].content
  {
    TextsPrefix(copies, i + 1, |copies|);
    var off := |Texts(copies, i)|;
    assert Texts(copies, i + 1)[off + j] == copies[i].chunks[j].content;
    assert AllTexts(copies)[off + j] == copies[i].chunks[j].content;
  }

  /** From row to row: a selected row of the source is found in the target under its workspace and
      chunk id, with the same text, the same payload and the vector of its text. */
  lemma WarmedFromSource(w: Client, db: Db, source: string, target: string, workspace: string, rows: seq<DocKey>, ids: seq<RowId>,
                         clean: Cleaner, copies: seq<Copy>, cache: Cache, clock: Clock, n: nat) returns (c: Item)
    requires source in db.profiles && target in db.profiles && Lists(db, source, workspace, rows, ids, clean, copies) && n < |ids|
    requires Certification.Distinct(rows) && forall k :: k in rows <==> k in CatalogKeys(db.profiles[source].catalog, workspace)
    requires forall id :: id in ids <==> ReadFor(db.profiles[source].table, workspace, id)
    requires forall i: nat, j: nat :: i < |copies| && j < |copies[i].chunks| ==> LastWithKey(copies, i, j) && KeptFrom(copies, i, j)
    ensures ids[n] in db.profiles[source].table
    ensures var done := Complete(w, target, copies, State(cache, db), clock);
            var row, t := db.profiles[source].table[ids[n]], done.db.profiles[target].table;
            && Copies(ids[n], row, c) && RowKey(c) in t && w.key(row.content) in done.cache
            && Holds(t[RowKey(c)], c.(vector := done.cache[w.key(row.content)]))
  {
    hide Lists, RowKey, Holds, Copies, Complete, LastWithKey, KeptFrom;
    var i, j := RowIsListed(db, source, workspace, rows, ids, clean, copies, n);
    assert ids[n] in db.profiles[source].table;
    c := copies[i].chunks[j];
    WarmedRow(w, target, copies, State(cache, db), clock, i, j);
    SameText(ids[n], db.profiles[source].table[ids[n]], c);
  }

  lemma SameText(id: RowId, row: ChunkRow, c: Item)
    requires Copies(id, row, c)
    ensures c.content == row.content
  {
  }
}
