/** The transactions of the writers as lists of statements, and the step each of them stands
    for.  What a transaction reads is a parameter of its list. */
module Transactions {
  import opened Text
  import opened ChunkIdentity
  import opened Store
  import opened Reconcile
  import opened SharedRows
  import opened Cells
  import opened Statements
  import opened Rights
  import opened Interleaving
  import Runs
  import Refinement
  import Agreement

  // ---- Lists of statements -------------------------------------------------------------------

  lemma {:induction false} ReplayBoth(db: Db, a: seq<Stmt>, b: seq<Stmt>)
    ensures Replay(db, a + b) == match Replay(db, a) { case None => None case Some(d) => Replay(d, b) }
    decreases |b|
  {
    hide Redone;
    if b == [] {
      assert a + b == a;
    } else {
      var n := |b| - 1;
      assert (a + b)[..|a + b| - 1] == a + b[..n];
      ReplayBoth(db, a, b[..n]);
    }
  }

  lemma ReplayOne(db: Db, st: Stmt)
    ensures Replay(db, [st]) == Redone(db, st)
  {
    hide Redone;
    assert [st][..0] == [];
  }

  lemma SharedRedone(db: Db, st: Stmt)
    requires ChangesShared(st) && (ModelOf(st).Some? ==> st.model in db.profiles)
    ensures Redone(db, st) == Some(ChangedDb(db, st))
  {
    hide ChangedDb;
  }

  lemma ProfileRedone(db: Db, st: Stmt)
    requires ChangesProfile(st) && st.model in db.profiles
    ensures Redone(db, st) == Some(WithProfile(db, st.model, Changed(db.profiles[st.model], db.sources, st)))
  {
    hide Changed;
  }

  /** The chunks of a publication, row after row. */
  function PutChunks(m: string, items: seq<Item>): seq<Stmt> {
    if items == [] then [] else PutChunks(m, items[..|items| - 1]) + [PutChunk(m, items[|items| - 1])]
  }

  lemma {:induction false} ChunksReplayed(db: Db, m: string, items: seq<Item>)
    requires m in db.profiles
    ensures Replay(db, PutChunks(m, items)) == Some(WithProfile(db, m, db.profiles[m].(table := Upsert(db.profiles[m].table, items))))
  {
    hide Redone, ItemRow, ItemId, WithProfile;
    var p := db.profiles[m];
    if items == [] {
      assert p.(table := Upsert(p.table, items)) == p;
      ProfileTwice(db, m, p, p);
    } else {
      var n := |items| - 1;
      ChunksReplayed(db, m, items[..n]);
      ReplayBoth(db, PutChunks(m, items[..n]), [PutChunk(m, items[n])]);
      var q := p.(table := Upsert(p.table, items[..n]));
      ReplayOne(WithProfile(db, m, q), PutChunk(m, items[n]));
      ChunkPut(db, m, p, items);
    }
  }

  lemma ProfileTwice(db: Db, m: string, p: Profile, q: Profile)
    ensures WithProfile(WithProfile(db, m, p), m, q) == WithProfile(db, m, q) && m in WithProfile(db, m, p).profiles
    ensures m in db.profiles ==> WithProfile(db, m, db.profiles[m]) == db
  {
    assert db.profiles[m := p][m := q] == db.profiles[m := q];
    assert m in db.profiles ==> db.profiles[m := db.profiles[m]] == db.profiles;
  }

  lemma ChunkPut(db: Db, m: string, p: Profile, items: seq<Item>)
    requires items != []
    ensures var n := |items| - 1;
            var q := p.(table := Upsert(p.table, items[..n]));
            Redone(WithProfile(db, m, q), PutChunk(m, items[n])) == Some(WithProfile(db, m, p.(table := Upsert(p.table, items))))
  {
    hide ItemRow, ItemId, Redone;
    var n := |items| - 1;
    var q := p.(table := Upsert(p.table, items[..n]));
    ProfileRedone(WithProfile(db, m, q), PutChunk(m, items[n]));
    ProfileTwice(db, m, q, p.(table := Upsert(p.table, items)));
  }

  /** `publish_metadata`: the count, the row it replaces, the row, and a new revision if the public
      part changes. */
  function MetadataStmts(m: string, doc: Document, time: Option<int>, now: int, row: CatalogRow, changes: bool): seq<Stmt> {
    [SeeCount(m, doc, time, now, row), SeePublic(m, doc.key, row, changes), PutCatalog(m, doc.key, row)]
    + if changes then [RaiseRevision(ScopeOf(m, doc.key))] else []
  }

  /** The two reads return what is there. */
  predicate SawRow(db: Db, m: string, doc: Document, time: Option<int>, now: int, row: CatalogRow, changes: bool) {
    && m in db.profiles && row == NewRow(db.profiles[m].table, doc, time, now)
    && changes == PublicChanges(db.profiles[m].catalog, doc.key, row)
  }

  lemma RowRead(db: Db, m: string, doc: Document, time: Option<int>, now: int, row: CatalogRow, changes: bool)
    ensures var r := Replay(db, [SeeCount(m, doc, time, now, row), SeePublic(m, doc.key, row, changes)]);
            if SawRow(db, m, doc, time, now, row, changes) then r == Some(db) else r == None
  {
    hide NewRow, PublicChanges, Redone;
    var a, b := SeeCount(m, doc, time, now, row), SeePublic(m, doc.key, row, changes);
    assert [a, b] == [a] + [b];
    ReplayBoth(db, [a], [b]);
    ReplayOne(db, a);
    ReplayOne(db, b);
    CountRead(db, a);
    PublicRead(db, b);
  }

  lemma CountRead(db: Db, st: Stmt)
    requires st.SeeCount?
    ensures Redone(db, st) == if st.model in db.profiles && NewRow(db.profiles[st.model].table, st.doc, st.time, st.now) == st.row then Some(db) else None
  {
    hide NewRow;
  }

  lemma PublicRead(db: Db, st: Stmt)
    requires st.SeePublic?
    ensures Redone(db, st) == if st.model in db.profiles && PublicChanges(db.profiles[st.model].catalog, st.key, st.row) == st.changes then Some(db) else None
  {
    hide PublicChanges;
  }

  lemma RowPut(db: Db, m: string, doc: Document, time: Option<int>, now: int, row: CatalogRow, changes: bool)
    requires SawRow(db, m, doc, time, now, row, changes)
    ensures Replay(db, [PutCatalog(m, doc.key, row)] + if changes then [RaiseRevision(ScopeOf(m, doc.key))] else [])
         == Some(PublishMetadata(db, m, doc, time, now))
  {
    hide NewRow, PublicChanges, PublishRow;
    var put, raise := PutCatalog(m, doc.key, row), RaiseRevision(ScopeOf(m, doc.key));
    var d := WithProfile(db, m, db.profiles[m].(catalog := PublishRow(db.profiles[m].catalog, doc.key, row)));
    ReplayOne(db, put);
    assert Redone(db, put) == Some(d);
    if changes {
      ReplayBoth(db, [put], [raise]);
      ReplayOne(d, raise);
    } else {
      assert [put] + [] == [put];
    }
  }

  lemma MetadataReplayed(db: Db, m: string, doc: Document, time: Option<int>, now: int, row: CatalogRow, changes: bool)
    ensures var r := Replay(db, MetadataStmts(m, doc, time, now, row, changes));
            if SawRow(db, m, doc, time, now, row, changes) then r == Some(PublishMetadata(db, m, doc, time, now)) else r == None
  {
    hide SawRow, PublishMetadata;
    var looks := [SeeCount(m, doc, time, now, row), SeePublic(m, doc.key, row, changes)];
    var puts := [PutCatalog(m, doc.key, row)] + if changes then [RaiseRevision(ScopeOf(m, doc.key))] else [];
    assert MetadataStmts(m, doc, time, now, row, changes) == looks + puts;
    ReplayBoth(db, looks, puts);
    RowRead(db, m, doc, time, now, row, changes);
    if SawRow(db, m, doc, time, now, row, changes) {
      RowPut(db, m, doc, time, now, row, changes);
    }
  }

  lemma ReplayThree(db: Db, a: Stmt, b: Stmt, c: Stmt)
    ensures Replay(db, [a, b, c]) == match Redone(db, a) {
              case None => None
              case Some(d) => match Redone(d, b) { case None => None case Some(e) => Redone(e, c) }
            }
  {
    hide Redone;
    assert [a, b, c] == [a] + [b] + [c];
    ReplayBoth(db, [a] + [b], [c]);
    ReplayBoth(db, [a], [b]);
    ReplayOne(db, a);
    if Redone(db, a).Some? {
      var d := Redone(db, a).value;
      ReplayOne(d, b);
      if Redone(d, b).Some? {
        ReplayOne(Redone(d, b).value, c);
      }
    }
  }

  function AssetStmts(m: string, k: DocKey, assets: seq<AssetRecord>): seq<Stmt> {
    if assets == [] then []
    else
      var a := assets[|assets| - 1];
      AssetStmts(m, k, assets[..|assets| - 1]) + [AddAsset(k, a), AddRef(Ref(m, k, a.id))]
  }

  lemma {:induction false} AssetsReplayed(db: Db, m: string, k: DocKey, assets: seq<AssetRecord>)
    ensures Replay(db, AssetStmts(m, k, assets)) == Some(InsertAssets(db, m, k, assets))
  {
    hide Redone;
    if assets != [] {
      var n := |assets| - 1;
      var d := InsertAssets(db, m, k, assets[..n]);
      AssetsReplayed(db, m, k, assets[..n]);
      var two := [AddAsset(k, assets[n]), AddRef(Ref(m, k, assets[n].id))];
      ReplayBoth(db, AssetStmts(m, k, assets[..n]), two);
      assert two == [two[0]] + [two[1]];
      ReplayBoth(d, [two[0]], [two[1]]);
      ReplayOne(d, two[0]);
      SharedRedone(d, two[0]);
      ReplayOne(ChangedDb(d, two[0]), two[1]);
      SharedRedone(ChangedDb(d, two[0]), two[1]);
    }
  }

  /** `_prune_shared_document`, by what it reads of `ready`. */
  function PruneStmts(k: DocKey, seen: bool): seq<Stmt> {
    [SeeReady(seen)] + if seen then [PruneAssets(k), PruneSource(k)] else []
  }

  function PrunedAs(db: Db, k: DocKey, seen: bool): Db {
    if seen then DropOrphanSource(DropOrphanAssets(db, k), k) else db
  }

  lemma PruneReplayed(db: Db, k: DocKey, seen: bool)
    ensures Replay(db, PruneStmts(k, seen)) == Some(PrunedAs(db, k, seen))
    ensures SameLists(PrunedAs(db, k, seen), db) && (seen == db.ready ==> PrunedAs(db, k, seen) == Prune(db, k))
  {
    hide DropOrphanAssets, DropOrphanSource;
    PruneKeepsLists(db, k);
    if seen {
      assert PruneStmts(k, seen) == [SeeReady(seen), PruneAssets(k), PruneSource(k)];
      ReplayThree(db, SeeReady(seen), PruneAssets(k), PruneSource(k));
    } else {
      assert PruneStmts(k, seen) == [SeeReady(seen)];
      ReplayOne(db, SeeReady(seen));
    }
  }

  lemma PruneKeepsLists(db: Db, k: DocKey)
    ensures SameLists(DropOrphanSource(DropOrphanAssets(db, k), k), db)
  {
  }

  // ---- A publication ---------------------------------------------------------------------------

  /** What a publication's reads return: the row it makes, whether its public part is new, and
      the flag. */
  datatype Reads = Reads(row: CatalogRow, changes: bool, ready: bool)

  function RowStmts(m: string, doc: Document, items: seq<Item>, preserve: bool, now: int, r: Reads): seq<Stmt> {
    [DeleteChunks(m, {doc.key}), PutSource(doc, preserve)] + PutChunks(m, items)
    + MetadataStmts(m, doc, if preserve then doc.time else Some(now), now, r.row, r.changes)
  }

  /** `_replace_on_connection` once its guards have passed. */
  function WrittenStmts(m: string, doc: Document, items: seq<Item>, assets: seq<AssetRecord>, preserve: bool, now: int, r: Reads): seq<Stmt> {
    RowStmts(m, doc, items, preserve, now, r) + [DropRefs(m, doc.key)] + AssetStmts(m, doc.key, assets) + PruneStmts(doc.key, r.ready)
  }

  /** The rows of a publication before its catalog row. */
  function ChunksReplaced(db: Db, m: string, doc: Document, items: seq<Item>, preserve: bool): Db
    requires m in db.profiles
  {
    InsertSource(WithProfile(db, m, db.profiles[m].(table := ReplacedTable(db.profiles[m].table, doc.key, items))), doc, preserve)
  }

  lemma RowsBegun(db: Db, m: string, doc: Document, items: seq<Item>, preserve: bool)
    ensures var stmts := [DeleteChunks(m, {doc.key}), PutSource(doc, preserve)] + PutChunks(m, items);
            if m in db.profiles then Replay(db, stmts) == Some(ChunksReplaced(db, m, doc, items, preserve)) else Replay(db, stmts) == None
  {
    hide DeleteGroups, InsertSource, Upsert;
    var two := [DeleteChunks(m, {doc.key}), PutSource(doc, preserve)];
    ReplayBoth(db, two, PutChunks(m, items));
    assert two == [two[0]] + [two[1]];
    ReplayBoth(db, [two[0]], [two[1]]);
    ReplayOne(db, two[0]);
    if m in db.profiles {
      var p := db.profiles[m];
      var q := p.(table := DeleteGroups(p.table, {doc.key}));
      var d := WithProfile(db, m, q);
      ReplayOne(d, two[1]);
      var e := InsertSource(d, doc, preserve);
      SourceApart(d, doc, preserve);
      ChunksReplayed(e, m, items);
      SourceThenTable(db, m, doc, preserve, q, q.(table := Upsert(q.table, items)));
    }
  }

  lemma SourceApart(db: Db, doc: Document, keep: bool)
    ensures InsertSource(db, doc, keep).profiles == db.profiles && InsertSource(db, doc, keep).revisions == db.revisions
    ensures InsertSource(db, doc, keep).ready == db.ready && InsertSource(db, doc, keep).workspaces == db.workspaces
  {
  }

  lemma SourceThenTable(db: Db, m: string, doc: Document, keep: bool, p: Profile, q: Profile)
    ensures WithProfile(InsertSource(WithProfile(db, m, p), doc, keep), m, q) == InsertSource(WithProfile(db, m, q), doc, keep)
  {
    assert db.profiles[m := p][m := q] == db.profiles[m := q];
  }

  lemma RowsReplayed(db: Db, m: string, doc: Document, items: seq<Item>, preserve: bool, now: int, r: Reads)
    ensures var d := Replay(db, RowStmts(m, doc, items, preserve, now, r));
            && (d.Some? ==> m in db.profiles && d.value == ReplaceRows(db, m, doc, items, preserve, now))
            && (d.Some? <==> m in db.profiles && SawRow(ChunksReplaced(db, m, doc, items, preserve), m, doc,
                                                         if preserve then doc.time else Some(now), now, r.row, r.changes))
  {
    hide ChunksReplaced, SawRow, MetadataStmts, PutChunks, PublishMetadata;
    var time := if preserve then doc.time else Some(now);
    var rows := [DeleteChunks(m, {doc.key}), PutSource(doc, preserve)] + PutChunks(m, items);
    ReplayBoth(db, rows, MetadataStmts(m, doc, time, now, r.row, r.changes));
    RowsBegun(db, m, doc, items, preserve);
    if m in db.profiles {
      MetadataReplayed(ChunksReplaced(db, m, doc, items, preserve), m, doc, time, now, r.row, r.changes);
      RowsAre(db, m, doc, items, preserve, now);
    }
  }

  lemma RowsAre(db: Db, m: string, doc: Document, items: seq<Item>, preserve: bool, now: int)
    requires m in db.profiles
    ensures m in ChunksReplaced(db, m, doc, items, preserve).profiles
    ensures ReplaceRows(db, m, doc, items, preserve, now)
         == PublishMetadata(ChunksReplaced(db, m, doc, items, preserve), m, doc, if preserve then doc.time else Some(now), now)
  {
    hide ReplacedTable, PublishMetadata;
  }

  lemma SharedReplayed(db: Db, m: string, k: DocKey, assets: seq<AssetRecord>, seen: bool)
    requires m in db.profiles
    ensures Replay(db, [DropRefs(m, k)] + AssetStmts(m, k, assets) + PruneStmts(k, seen))
         == Some(PrunedAs(InsertAssets(DeleteRefs(db, m, {k}), m, k, assets), k, seen))
  {
    hide AssetStmts, PruneStmts, InsertAssets, PrunedAs, DeleteRefs, Replay, Redone;
    var drop, more, prune := [DropRefs(m, k)], AssetStmts(m, k, assets), PruneStmts(k, seen);
    ReplayBoth(db, drop + more, prune);
    ReplayBoth(db, drop, more);
    ReplayOne(db, drop[0]);
    SharedRedone(db, drop[0]);
    AssetsReplayed(DeleteRefs(db, m, {k}), m, k, assets);
    PruneReplayed(InsertAssets(DeleteRefs(db, m, {k}), m, k, assets), k, seen);
  }

  /** The statements of a written publication do what the transaction does, up to the pruning if
      the flag was another when it was read. */
  lemma WrittenReplayed(db: Db, m: string, doc: Document, items: seq<Item>, assets: seq<AssetRecord>, preserve: bool, now: int, r: Reads)
    ensures var d := Replay(db, WrittenStmts(m, doc, items, assets, preserve, now, r));
            && (d.Some? <==> Replay(db, RowStmts(m, doc, items, preserve, now, r)).Some?)
            && (d.Some? ==> m in db.profiles && SameLists(d.value, ReplaceWritten(db, m, doc, items, assets, preserve, now))
                            && (r.ready == db.ready ==> d.value == ReplaceWritten(db, m, doc, items, assets, preserve, now)))
  {
    hide RowStmts, AssetStmts, PruneStmts, ReplaceRows, Prune, InsertAssets, PrunedAs, DeleteRefs, Replay, Redone;
    var k := doc.key;
    var rows, rest := RowStmts(m, doc, items, preserve, now, r), [DropRefs(m, k)] + AssetStmts(m, k, assets) + PruneStmts(k, r.ready);
    assert WrittenStmts(m, doc, items, assets, preserve, now, r) == rows + rest;
    ReplayBoth(db, rows, rest);
    RowsReplayed(db, m, doc, items, preserve, now, r);
    if Replay(db, rows).Some? {
      var d := ReplaceRows(db, m, doc, items, preserve, now);
      var f := InsertAssets(DeleteRefs(d, m, {k}), m, k, assets);
      SharedReplayed(d, m, k, assets, r.ready);
      PruneReplayed(f, k, r.ready);
      PruneListsKept(f, k);
      Refinement.ReadyStays(db, m, doc, items, assets, preserve, now);
    }
  }

  lemma PruneListsKept(db: Db, k: DocKey)
    ensures SameLists(Prune(db, k), db)
  {
  }

  // ---- What they stand for ------------------------------------------------------------------------

  lemma SawIn(log: seq<Stmt>, ready: bool, i: nat)
    requires SawOnly(log, ready) && i < |log| && log[i].SeeReady?
    ensures log[i].ready == ready
  {
  }

  lemma SawPart(a: seq<Stmt>, b: seq<Stmt>, ready: bool)
    ensures SawOnly(a + b, ready) <==> SawOnly(a, ready) && SawOnly(b, ready)
  {
    assert forall i :: 0 <= i < |a| ==> (a + b)[i] == a[i];
    assert forall i :: 0 <= i < |b| ==> (a + b)[|a| + i] == b[i];
  }

  /** An ingestion that publishes. */
  function IngestStmts(m: string, doc: Document, chunks: seq<Runs.Chunk>, assets: seq<AssetRecord>, now: int, r: Reads): seq<Stmt> {
    [SeeOutcome(m, doc, false, Outcome.Written)] + WrittenStmts(m, doc, Runs.IngestItems(doc, chunks), assets, false, now, r)
  }

  lemma IngestStands(owner: AssetOwner, m: string, doc: Document, chunks: seq<Runs.Chunk>, assets: seq<AssetRecord>, now: int, r: Reads)
    ensures StandsFor(owner, Runs.Ingest(m, doc, chunks, assets, now), IngestStmts(m, doc, chunks, assets, now, r))
  {
    hide WrittenStmts, ReplaceWritten, ReplaceOutcome, AssetsHome, Runs.IngestItems, SawOnly, Replay;
    var step, log := Runs.Ingest(m, doc, chunks, assets, now), IngestStmts(m, doc, chunks, assets, now, r);
    var items := Runs.IngestItems(doc, chunks);
    forall db | Replay(db, log).Some? ensures Stands(db, step, log, Replay(db, log).value) {
      GuardPassed(db, m, doc, Outcome.Written, WrittenStmts(m, doc, items, assets, false, now, r));
      WrittenReplayed(db, m, doc, items, assets, false, now, r);
      if SawOnly(log, db.ready) {
        SawPart([SeeOutcome(m, doc, false, Outcome.Written)], WrittenStmts(m, doc, items, assets, false, now, r), db.ready);
        WrittenSaw(m, doc, items, assets, false, now, r, db.ready);
      }
    }
  }

  lemma GuardPassed(db: Db, m: string, doc: Document, outcome: Outcome, rest: seq<Stmt>)
    ensures var r := Replay(db, [SeeOutcome(m, doc, false, outcome)] + rest);
            && (r.Some? ==> m in db.profiles && ReplaceOutcome(db, m, doc, false) == outcome)
            && (m in db.profiles && ReplaceOutcome(db, m, doc, false) == outcome ==> r == Replay(db, rest))
  {
    hide ReplaceOutcome;
    ReplayBoth(db, [SeeOutcome(m, doc, false, outcome)], rest);
    ReplayOne(db, SeeOutcome(m, doc, false, outcome));
  }

  lemma WrittenSaw(m: string, doc: Document, items: seq<Item>, assets: seq<AssetRecord>, preserve: bool, now: int, r: Reads, ready: bool)
    requires SawOnly(WrittenStmts(m, doc, items, assets, preserve, now, r), ready)
    ensures r.ready == ready
  {
    hide RowStmts, AssetStmts;
    SawPart(RowStmts(m, doc, items, preserve, now, r) + [DropRefs(m, doc.key)] + AssetStmts(m, doc.key, assets), PruneStmts(doc.key, r.ready), ready);
    SawIn(PruneStmts(doc.key, r.ready), ready, 0);
  }

  /** An ingestion whose version is already there. */
  lemma UnchangedStands(owner: AssetOwner, m: string, doc: Document, chunks: seq<Runs.Chunk>, assets: seq<AssetRecord>, now: int)
    ensures StandsFor(owner, Runs.Ingest(m, doc, chunks, assets, now), [SeeOutcome(m, doc, false, Unchanged)])
  {
    hide ReplaceWritten, ReplaceOutcome, AssetsHome, Runs.IngestItems, Replay;
    var step, log := Runs.Ingest(m, doc, chunks, assets, now), [SeeOutcome(m, doc, false, Unchanged)];
    forall db | Replay(db, log).Some? ensures Stands(db, step, log, Replay(db, log).value) {
      ReplayOne(db, log[0]);
      SeenOutcome(db, log[0]);
    }
  }

  lemma SeenOutcome(db: Db, st: Stmt)
    requires st.SeeOutcome? && Redone(db, st).Some?
    ensures st.model in db.profiles && ReplaceOutcome(db, st.model, st.doc, st.preserve) == st.outcome && Redone(db, st).value == db
  {
  }

  lemma WarmPublishStands(owner: AssetOwner, m: string, doc: Document, items: seq<Item>, assets: seq<AssetRecord>, now: int, r: Reads)
    ensures StandsFor(owner, Runs.WarmPublish(m, doc, items, assets, now), WrittenStmts(m, doc, items, assets, true, now, r))
  {
    hide WrittenStmts, ReplaceWritten, AssetsHome, SawOnly, Replay;
    var step, log := Runs.WarmPublish(m, doc, items, assets, now), WrittenStmts(m, doc, items, assets, true, now, r);
    forall db | Replay(db, log).Some? ensures Stands(db, step, log, Replay(db, log).value) {
      WrittenReplayed(db, m, doc, items, assets, true, now, r);
      if SawOnly(log, db.ready) {
        WrittenSaw(m, doc, items, assets, true, now, r, db.ready);
      }
    }
  }

  lemma SetStatusStands(owner: AssetOwner, m: string, status: Status)
    ensures StandsFor(owner, Runs.SetStatus(m, status), [PutStatus(m, status)])
  {
    hide AssetsHome, Replay;
    forall db | Replay(db, [PutStatus(m, status)]).Some?
      ensures Stands(db, Runs.SetStatus(m, status), [PutStatus(m, status)], Replay(db, [PutStatus(m, status)]).value)
    {
      ReplayOne(db, PutStatus(m, status));
    }
  }

  lemma SuspendStands(owner: AssetOwner)
    ensures StandsFor(owner, Runs.Suspend, [PutReady(false)])
  {
    hide AssetsHome, Replay;
    forall db | Replay(db, [PutReady(false)]).Some?
      ensures Stands(db, Runs.Suspend, [PutReady(false)], Replay(db, [PutReady(false)]).value)
    {
      ReplayOne(db, PutReady(false));
    }
  }

  // ---- Cleanup ---------------------------------------------------------------------------------------

  function PruneEach(order: seq<DocKey>, seen: seq<bool>): seq<Stmt>
    requires |order| == |seen|
  {
    if order == [] then []
    else PruneEach(order[..|order| - 1], seen[..|order| - 1]) + PruneStmts(order[|order| - 1], seen[|order| - 1])
  }

  lemma {:induction false} PrunesReplayed(db: Db, order: seq<DocKey>, seen: seq<bool>)
    requires |order| == |seen|
    ensures var r := Replay(db, PruneEach(order, seen));
            && r.Some? && SameLists(r.value, db)
            && ((forall i :: 0 <= i < |seen| ==> seen[i] == db.ready) ==> r.value == PruneAll(db, order))
  {
    hide PruneStmts, Prune, PrunedAs;
    if order != [] {
      var n := |order| - 1;
      PrunesReplayed(db, order[..n], seen[..n]);
      ReplayBoth(db, PruneEach(order[..n], seen[..n]), PruneStmts(order[n], seen[n]));
      var d := Replay(db, PruneEach(order[..n], seen[..n])).value;
      PruneReplayed(d, order[n], seen[n]);
    }
  }

  lemma {:induction false} PrunesSaw(order: seq<DocKey>, seen: seq<bool>, ready: bool)
    requires |order| == |seen| && SawOnly(PruneEach(order, seen), ready)
    ensures forall i :: 0 <= i < |seen| ==> seen[i] == ready
  {
    hide SawOnly;
    if order != [] {
      var n := |order| - 1;
      SawPart(PruneEach(order[..n], seen[..n]), PruneStmts(order[n], seen[n]), ready);
      PrunesSaw(order[..n], seen[..n], ready);
      SawIn(PruneStmts(order[n], seen[n]), ready, 0);
      assert forall i :: 0 <= i < n ==> seen[..n][i] == seen[i];
    }
  }

  /** `delete_missing_documents`; with nothing missing it ends after the read. */
  function CleanupStmts(m: string, scan: Scan, order: seq<DocKey>, seen: seq<bool>): seq<Stmt>
    requires |order| == |seen|
  {
    [SeeMissing(m, scan, order)] + RemovalStmts(m, scan, order, seen)
  }

  function RemovalStmts(m: string, scan: Scan, order: seq<DocKey>, seen: seq<bool>): seq<Stmt>
    requires |order| == |seen|
  {
    var ks := set k | k in order;
    if order == [] then []
    else [DeleteChunks(m, ks), DropPublications(m, ks), RaiseRevision(Scope(scan.workspace, m, scan.chunking))] + PruneEach(order, seen)
  }

  lemma CleanupReplayed(db: Db, m: string, scan: Scan, order: seq<DocKey>, seen: seq<bool>)
    requires |order| == |seen|
    ensures var r := Replay(db, CleanupStmts(m, scan, order, seen));
            && (r.Some? <==> m in db.profiles && Enumerates(order, MissingKeys(db.profiles[m].catalog, scan)))
            && (r.Some? ==>
              && SameLists(r.value, DeleteMissing(db, m, scan, order))
              && ((forall i :: 0 <= i < |seen| ==> seen[i] == db.ready) ==> r.value == DeleteMissing(db, m, scan, order)))
  {
    hide MissingKeys, DeleteGroups, PruneEach, Enumerates;
    var look := [SeeMissing(m, scan, order)];
    var ks := set k | k in order;
    var rest := if order == [] then []
                else [DeleteChunks(m, ks), DropPublications(m, ks), RaiseRevision(Scope(scan.workspace, m, scan.chunking))] + PruneEach(order, seen);
    ReplayBoth(db, look, rest);
    ReplayOne(db, look[0]);
    SawMissing(db, m, scan, order);
    if Redone(db, look[0]).Some? {
      if order != [] {
        UnpublishedReplayed(db, m, scan, order);
        ReplayBoth(db, [DeleteChunks(m, ks), DropPublications(m, ks), RaiseRevision(Scope(scan.workspace, m, scan.chunking))], PruneEach(order, seen));
        var e := Refinement.Unpublished(db, m, scan);
        PrunesReplayed(e, order, seen);
        PruneAllLists(e, order);
        assert order[0] in ks;
      }
    }
  }

  lemma SawMissing(db: Db, m: string, scan: Scan, order: seq<DocKey>)
    ensures var r := Redone(db, SeeMissing(m, scan, order));
            && (r.Some? <==> m in db.profiles && Enumerates(order, MissingKeys(db.profiles[m].catalog, scan)))
            && (r.Some? ==> r.value == db && (set k | k in order) == MissingKeys(db.profiles[m].catalog, scan))
  {
    hide MissingKeys;
  }

  lemma UnpublishedReplayed(db: Db, m: string, scan: Scan, order: seq<DocKey>)
    requires m in db.profiles && (set k | k in order) == MissingKeys(db.profiles[m].catalog, scan)
    ensures var ks := set k | k in order;
            Replay(db, [DeleteChunks(m, ks), DropPublications(m, ks), RaiseRevision(Scope(scan.workspace, m, scan.chunking))])
              == Some(Refinement.Unpublished(db, m, scan))
  {
    hide MissingKeys, DeleteGroups, Redone, DeleteRefs, Bump, Replay;
    var ks := set k | k in order;
    var p := db.profiles[m];
    var q := p.(table := DeleteGroups(p.table, ks));
    var r := q.(catalog := p.catalog - ks);
    var delete, drop, raise := DeleteChunks(m, ks), DropPublications(m, ks), RaiseRevision(Scope(scan.workspace, m, scan.chunking));
    ReplayThree(db, delete, drop, raise);
    ProfileRedone(db, delete);
    assert Redone(db, delete) == Some(WithProfile(db, m, q));
    SharedRedone(WithProfile(db, m, q), drop);
    SharedRedone(ChangedDb(WithProfile(db, m, q), drop), raise);
    assert db.profiles[m := q][m := r] == db.profiles[m := r];
    assert r == Agreement.CleanedProfile(p, scan);
  }

  lemma {:induction false} PruneAllLists(db: Db, order: seq<DocKey>)
    ensures SameLists(PruneAll(db, order), db)
  {
    hide Prune;
    if order != [] {
      PruneAllLists(db, order[..|order| - 1]);
      PruneListsKept(PruneAll(db, order[..|order| - 1]), order[|order| - 1]);
    }
  }

  lemma CleanupStands(owner: AssetOwner, m: string, scan: Scan, order: seq<DocKey>, seen: seq<bool>)
    requires |order| == |seen|
    ensures StandsFor(owner, Runs.Cleanup(m, scan, order), CleanupStmts(m, scan, order, seen))
  {
    hide DeleteMissing, AssetsHome, Replay, SawOnly, PruneEach;
    var step, log := Runs.Cleanup(m, scan, order), CleanupStmts(m, scan, order, seen);
    forall db | Replay(db, log).Some? ensures Stands(db, step, log, Replay(db, log).value) {
      CleanupReplayed(db, m, scan, order, seen);
      if SawOnly(log, db.ready) {
        CleanupSaw(m, scan, order, seen, db.ready);
      }
    }
  }

  lemma CleanupSaw(m: string, scan: Scan, order: seq<DocKey>, seen: seq<bool>, ready: bool)
    requires |order| == |seen| && SawOnly(CleanupStmts(m, scan, order, seen), ready)
    ensures forall i :: 0 <= i < |seen| ==> seen[i] == ready
  {
    hide SawOnly, PruneEach;
    if order != [] {
      var ks := set k | k in order;
      var three := [DeleteChunks(m, ks), DropPublications(m, ks), RaiseRevision(Scope(scan.workspace, m, scan.chunking))];
      SawPart([SeeMissing(m, scan, order)], three + PruneEach(order, seen), ready);
      SawPart(three, PruneEach(order, seen), ready);
      PrunesSaw(order, seen, ready);
    }
  }

  // ---- Certification ------------------------------------------------------------------------------------

  /** What is read for one document: the document completed from source and catalog, its row, and
      its assets in some order. */
  datatype GroupReads = GroupReads(doc: Document, row: CatalogRow, changes: bool, ids: seq<string>)

  function AddRefs(m: string, k: DocKey, ids: seq<string>): seq<Stmt> {
    if ids == [] then [] else AddRefs(m, k, ids[..|ids| - 1]) + [AddRef(Ref(m, k, ids[|ids| - 1]))]
  }

  lemma RefAdded(db: Db, r: Ref)
    ensures Redone(db, AddRef(r)) == Some(db.(refs := db.refs + {r}))
  {
  }

  lemma {:induction false} RefsReplayed(db: Db, m: string, k: DocKey, ids: seq<string>)
    ensures Replay(db, AddRefs(m, k, ids)) == Some(db.(refs := db.refs + set i | i in ids :: Ref(m, k, i)))
  {
    hide Redone;
    if ids == [] {
      assert db.refs + (set i | i in ids :: Ref(m, k, i)) == db.refs;
    } else {
      var n := |ids| - 1;
      RefsReplayed(db, m, k, ids[..n]);
      ReplayBoth(db, AddRefs(m, k, ids[..n]), [AddRef(Ref(m, k, ids[n]))]);
      var d := db.(refs := db.refs + set i | i in ids[..n] :: Ref(m, k, i));
      ReplayOne(d, AddRef(Ref(m, k, ids[n])));
      RefAdded(d, Ref(m, k, ids[n]));
      assert ids == ids[..n] + [ids[n]];
      assert d.refs + {Ref(m, k, ids[n])} == db.refs + set i | i in ids :: Ref(m, k, i);
    }
  }

  function GroupStmts(m: string, v: Table, g: Group, clean: Cleaner, now: int, r: GroupReads): seq<Stmt>
    requires Member(v, g.first, g.key)
  {
    [SeeDocument(m, LegacyDocument(v, g, clean), r.doc), PutSource(r.doc, true)]
    + MetadataStmts(m, r.doc, r.doc.time, now, r.row, r.changes) + [DropRefs(m, g.key)] + AddRefs(m, g.key, r.ids)
  }

  lemma GroupReplayed(db: Db, m: string, v: Table, g: Group, clean: Cleaner, now: int, r: GroupReads)
    requires Member(v, g.first, g.key) && (set i | i in r.ids) == AssetIds(v, g.key)
    ensures var d := Replay(db, GroupStmts(m, v, g, clean, now, r));
            && (d.Some? ==> m in db.profiles && d.value == ApplyGroup(db, v, m, g, clean, now))
            && (d.Some? <==> m in db.profiles && r.doc == WithTime(db, m, WithRoot(db, LegacyDocument(v, g, clean)))
                             && SawRow(InsertSource(db, r.doc, true), m, r.doc, r.doc.time, now, r.row, r.changes))
  {
    hide MetadataStmts, AddRefs, LegacyDocument, AssetIds, PublishMetadata, InsertSource, SawRow, WithTime, WithRoot;
    var begin := [SeeDocument(m, LegacyDocument(v, g, clean), r.doc), PutSource(r.doc, true)];
    var row, drop, refs := MetadataStmts(m, r.doc, r.doc.time, now, r.row, r.changes), [DropRefs(m, g.key)], AddRefs(m, g.key, r.ids);
    ReplayBoth(db, begin + row + drop, refs);
    ReplayBoth(db, begin + row, drop);
    ReplayBoth(db, begin, row);
    assert begin == [begin[0]] + [begin[1]];
    ReplayBoth(db, [begin[0]], [begin[1]]);
    ReplayOne(db, begin[0]);
    SawDocument(db, begin[0]);
    if Redone(db, begin[0]).Some? {
      ReplayOne(db, begin[1]);
      var c := InsertSource(db, r.doc, true);
      SourceApart(db, r.doc, true);
      MetadataReplayed(c, m, r.doc, r.doc.time, now, r.row, r.changes);
      var d := PublishMetadata(c, m, r.doc, r.doc.time, now);
      ReplayOne(d, drop[0]);
      var e := DeleteRefs(d, m, {g.key});
      assert Redone(d, drop[0]) == Some(e) by {
        MetadataKeepsProfiles(c, m, r.doc, r.doc.time, now);
      }
      RefsReplayed(e, m, g.key, r.ids);
      assert (set i | i in r.ids :: Ref(m, g.key, i)) == (set i | i in AssetIds(v, g.key) :: Ref(m, g.key, i)) by {
        assert forall i :: i in r.ids <==> i in AssetIds(v, g.key);
      }
    }
  }

  lemma MetadataKeepsProfiles(db: Db, m: string, doc: Document, time: Option<int>, now: int)
    requires m in db.profiles
    ensures m in PublishMetadata(db, m, doc, time, now).profiles
  {
  }

  lemma SawDocument(db: Db, st: Stmt)
    requires st.SeeDocument?
    ensures Redone(db, st).Some? <==> st.model in db.profiles && WithTime(db, st.model, WithRoot(db, st.legacy)) == st.doc
    ensures Redone(db, st).Some? ==> Redone(db, st).value == db
  {
  }

  predicate GroupsRead(v: Table, groups: seq<Group>, rs: seq<GroupReads>) {
    && Members(v, groups) && |rs| == |groups|
    && forall i :: 0 <= i < |groups| ==> (set x | x in rs[i].ids) == AssetIds(v, groups[i].key)
  }

  function GroupsStmts(m: string, v: Table, groups: seq<Group>, clean: Cleaner, now: int, rs: seq<GroupReads>): seq<Stmt>
    requires Members(v, groups) && |rs| == |groups|
  {
    if groups == [] then []
    else
      var n := |groups| - 1;
      GroupsStmts(m, v, groups[..n], clean, now, rs[..n]) + GroupStmts(m, v, groups[n], clean, now, rs[n])
  }

  lemma {:induction false} GroupsReplayed(db: Db, m: string, v: Table, groups: seq<Group>, clean: Cleaner, now: int, rs: seq<GroupReads>)
    requires m in db.profiles && GroupsRead(v, groups, rs)
    ensures var d := Replay(db, GroupsStmts(m, v, groups, clean, now, rs));
            d.Some? ==> d.value == ApplyGroups(db, v, m, groups, clean, now)
  {
    hide GroupStmts, ApplyGroup, AssetIds;
    if groups != [] {
      var n := |groups| - 1;
      GroupsReplayed(db, m, v, groups[..n], clean, now, rs[..n]);
      ReplayBoth(db, GroupsStmts(m, v, groups[..n], clean, now, rs[..n]), GroupStmts(m, v, groups[n], clean, now, rs[n]));
      GroupReplayed(ApplyGroups(db, v, m, groups[..n], clean, now), m, v, groups[n], clean, now, rs[n]);
    }
  }

  function DropStmts(m: string, ks: seq<DocKey>): seq<Stmt> {
    if ks == [] then []
    else DropStmts(m, ks[..|ks| - 1]) + [DropPublications(m, {ks[|ks| - 1]}), RaiseRevision(ScopeOf(m, ks[|ks| - 1]))]
  }

  lemma RowDropped(db: Db, m: string, k: DocKey)
    requires m in db.profiles
    ensures Replay(db, [DropPublications(m, {k}), RaiseRevision(ScopeOf(m, k))]) == Some(DropRow(db, m, k))
  {
    hide Redone, DeleteRefs, Bump, Replay, ChangedDb;
    var drop, raise := DropPublications(m, {k}), RaiseRevision(ScopeOf(m, k));
    var d := DeleteRefs(WithProfile(db, m, db.profiles[m].(catalog := db.profiles[m].catalog - {k})), m, {k});
    assert [drop, raise] == [drop] + [raise];
    ReplayBoth(db, [drop], [raise]);
    ReplayOne(db, drop);
    SharedRedone(db, drop);
    PublicationsDropped(db, m, {k});
    ReplayOne(d, raise);
    SharedRedone(d, raise);
    RevisionRaised(d, ScopeOf(m, k));
  }

  lemma PublicationsDropped(db: Db, m: string, ks: set<DocKey>)
    requires m in db.profiles
    ensures ChangedDb(db, DropPublications(m, ks))
         == DeleteRefs(WithProfile(db, m, db.profiles[m].(catalog := db.profiles[m].catalog - ks)), m, ks)
  {
    hide DeleteRefs;
  }

  lemma RevisionRaised(db: Db, scope: Scope)
    ensures ChangedDb(db, RaiseRevision(scope)) == Bump(db, scope)
  {
    hide Bump;
  }

  lemma {:induction false} DropsReplayed(db: Db, m: string, ks: seq<DocKey>)
    requires m in db.profiles
    ensures Replay(db, DropStmts(m, ks)) == Some(DropRows(db, m, ks))
  {
    hide DropRow;
    if ks != [] {
      var n := |ks| - 1;
      DropsReplayed(db, m, ks[..n]);
      var d := DropRows(db, m, ks[..n]);
      ReplayBoth(db, DropStmts(m, ks[..n]), [DropPublications(m, {ks[n]}), RaiseRevision(ScopeOf(m, ks[n]))]);
      RowDropped(d, m, ks[n]);
    }
  }

  function ProfileStmts(m: string, plan: Plan, v: Table, clean: Cleaner, now: int, rs: seq<GroupReads>): seq<Stmt>
    requires Members(v, plan.groups) && |rs| == |plan.groups|
  {
    [SeePlan(m, plan, v), WriteBack(m)] + GroupsStmts(m, v, plan.groups, clean, now, rs) + DropStmts(m, plan.stale)
  }

  lemma ProfileReplayed(db: Db, m: string, plan: Plan, v: Table, clean: Cleaner, now: int, rs: seq<GroupReads>)
    requires GroupsRead(v, plan.groups, rs)
    ensures var d := Replay(db, ProfileStmts(m, plan, v, clean, now, rs));
            d.Some? ==> Runs.CertifyProfile(db, m, plan, clean, now) == d
  {
    hide GroupsStmts, DropStmts, ApplyGroups, DropRows, PlanFor, Certifiable, View, Rebuilt;
    var two := [SeePlan(m, plan, v), WriteBack(m)];
    ReplayBoth(db, two + GroupsStmts(m, v, plan.groups, clean, now, rs), DropStmts(m, plan.stale));
    ReplayBoth(db, two, GroupsStmts(m, v, plan.groups, clean, now, rs));
    assert two == [two[0]] + [two[1]];
    ReplayBoth(db, [two[0]], [two[1]]);
    ReplayOne(db, two[0]);
    SawPlan(db, m, plan, v);
    if Redone(db, two[0]).Some? {
      ReplayOne(db, two[1]);
      var p := db.profiles[m];
      var d := WithProfile(db, m, p.(table := Rebuilt(db.sources, p.table)));
      assert Redone(db, two[1]) == Some(d);
      GroupsReplayed(d, m, v, plan.groups, clean, now, rs);
      DropsReplayed(ApplyGroups(d, v, m, plan.groups, clean, now), m, plan.stale);
      assert d.profiles[m].provisioned;
    }
  }

  lemma SawPlan(db: Db, m: string, plan: Plan, v: Table)
    ensures var r := Redone(db, SeePlan(m, plan, v));
            && (r.Some? <==> m in db.profiles && db.profiles[m].provisioned && View(db.sources, db.profiles[m].table) == v
                             && PlanFor(db, m, plan) && Certifiable(db, m))
            && (r.Some? ==> r.value == db)
  {
    hide PlanFor, Certifiable, View;
  }

  /** What is read for one profile: no storage, or the analysed table and its documents. */
  datatype ProfileReads = NoStorage | Storage(v: Table, groups: seq<GroupReads>)

  predicate WorkRead(work: seq<(string, Plan)>, rs: seq<ProfileReads>) {
    |rs| == |work| && forall i :: 0 <= i < |work| ==> (rs[i].Storage? ==> GroupsRead(rs[i].v, work[i].1.groups, rs[i].groups))
  }

  function ItemStmts(w: (string, Plan), clean: Cleaner, now: int, r: ProfileReads): seq<Stmt>
    requires r.Storage? ==> GroupsRead(r.v, w.1.groups, r.groups)
  {
    match r
    case NoStorage => [SeeUnprovisioned(w.0)]
    case Storage(v, gs) => ProfileStmts(w.0, w.1, v, clean, now, gs)
  }

  lemma ItemReplayed(db: Db, w: (string, Plan), clean: Cleaner, now: int, r: ProfileReads)
    requires r.Storage? ==> GroupsRead(r.v, w.1.groups, r.groups)
    ensures var d := Replay(db, ItemStmts(w, clean, now, r));
            d.Some? ==> Runs.CertifyProfile(db, w.0, w.1, clean, now) == d
  {
    hide GroupsRead, Runs.CertifyProfile;
    match r
    case NoStorage =>
      ReplayOne(db, SeeUnprovisioned(w.0));
      SawNoStorage(db, w.0, w.1, clean, now);
    case Storage(v, gs) =>
      ProfileReplayed(db, w.0, w.1, v, clean, now, gs);
  }

  function WorkStmts(work: seq<(string, Plan)>, clean: Cleaner, now: int, rs: seq<ProfileReads>): seq<Stmt>
    requires WorkRead(work, rs)
  {
    if work == [] then []
    else
      var n := |work| - 1;
      WorkStmts(work[..n], clean, now, rs[..n]) + ItemStmts(work[n], clean, now, rs[n])
  }

  lemma {:induction false} WorkReplayed(db: Db, work: seq<(string, Plan)>, clean: Cleaner, now: int, rs: seq<ProfileReads>)
    requires WorkRead(work, rs)
    ensures var d := Replay(db, WorkStmts(work, clean, now, rs));
            d.Some? ==> Runs.CertifyProfiles(db, work, clean, now) == d
  {
    hide ItemStmts, GroupsRead, Runs.CertifyProfile;
    if work != [] {
      var n := |work| - 1;
      WorkReplayed(db, work[..n], clean, now, rs[..n]);
      ReplayBoth(db, WorkStmts(work[..n], clean, now, rs[..n]), ItemStmts(work[n], clean, now, rs[n]));
      if Replay(db, WorkStmts(work[..n], clean, now, rs[..n])).Some? {
        ItemReplayed(Replay(db, WorkStmts(work[..n], clean, now, rs[..n])).value, work[n], clean, now, rs[n]);
      }
    }
  }

  lemma SawNoStorage(db: Db, m: string, plan: Plan, clean: Cleaner, now: int)
    ensures var r := Redone(db, SeeUnprovisioned(m));
            r.Some? ==> r.value == db && Runs.CertifyProfile(db, m, plan, clean, now) == Some(db)
  {
  }

  function CertificationStmts(work: seq<(string, Plan)>, clean: Cleaner, now: int, rs: seq<ProfileReads>): seq<Stmt>
    requires WorkRead(work, rs)
  {
    [SeeRegistry(Runs.WorkNames(work))] + WorkStmts(work, clean, now, rs) + [PutReady(true)]
  }

  lemma CertificationStands(owner: AssetOwner, work: seq<(string, Plan)>, clean: Cleaner, now: int, rs: seq<ProfileReads>)
    requires WorkRead(work, rs)
    ensures StandsFor(owner, Runs.Certification(work, clean, now), CertificationStmts(work, clean, now, rs))
  {
    hide WorkStmts, AssetsHome, Replay, Runs.CertifyProfiles, WorkRead;
    var step, log := Runs.Certification(work, clean, now), CertificationStmts(work, clean, now, rs);
    var look, body := [SeeRegistry(Runs.WorkNames(work))], WorkStmts(work, clean, now, rs);
    forall db | Replay(db, log).Some? ensures Stands(db, step, log, Replay(db, log).value) {
      ReplayBoth(db, look + body, [PutReady(true)]);
      ReplayBoth(db, look, body);
      ReplayOne(db, look[0]);
      SawRegistry(db, look[0]);
      WorkReplayed(db, work, clean, now, rs);
      var d := Replay(db, body).value;
      ReplayOne(d, PutReady(true));
      assert Redone(d, PutReady(true)) == Some(d.(ready := true));
    }
  }

  lemma SawRegistry(db: Db, st: Stmt)
    requires st.SeeRegistry? && Redone(db, st).Some?
    ensures db.profiles.Keys == st.names && Redone(db, st).value == db
  {
  }
}
