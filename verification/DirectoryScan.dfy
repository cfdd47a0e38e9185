/** Ingesting a directory: publish what changed, skip what did not, remove what is gone. */
module DirectoryScan {
  import opened Text
  import opened ChunkIdentity
  import opened Store
  import opened Agreement
  import opened Runs
  import opened Publication
  import opened RemovedDocuments
  import Certification

  /** A file as loaded and chunked; its content hash is always known. */
  datatype Loaded = Loaded(doc: Document, chunks: seq<Chunk>, assets: seq<AssetRecord>)

  /** The early check of the loop: this very version is already published. */
  predicate IsUnchanged(db: Db, model: string, l: Loaded)
    requires model in db.profiles
  {
    var c := db.profiles[model].catalog;
    l.doc.key in c && c[l.doc.key].hash == l.doc.hash
  }

  function IngestOne(db: Db, model: string, l: Loaded, now: int): (r: Db)
    requires model in db.profiles
    ensures model in r.profiles
  {
    if IsUnchanged(db, model, l) then db
    else Replace(db, model, l.doc, IngestItems(l.doc, l.chunks), l.assets, false, now)
  }

  function IngestFirst(db: Db, model: string, files: seq<Loaded>, n: nat, clock: nat -> int): (r: Db)
    requires n <= |files| && model in db.profiles
    ensures model in r.profiles
  {
    if n == 0 then db else IngestOne(IngestFirst(db, model, files, n - 1, clock), model, files[n - 1], clock(n - 1))
  }

  /** A whole scan.  `order` is the order in which documents found missing are pruned. */
  function Scanned(db: Db, model: string, files: seq<Loaded>, scan: Scan, order: seq<DocKey>, clock: nat -> int): Db
    requires model in db.profiles
  {
    DeleteMissing(IngestFirst(db, model, files, |files|, clock), model, scan, order)
  }

  ghost predicate ScansFor(scan: Scan, files: seq<Loaded>) {
    && (forall i :: 0 <= i < |files| ==>
          && files[i].doc.hash.Some? && files[i].doc.root == Some(scan.root)
          && files[i].doc.key.workspace == scan.workspace && files[i].doc.key.chunking == scan.chunking
          && files[i].doc.key.doc in scan.present)
    && (forall i, j :: 0 <= i < j < |files| ==> files[i].doc.key != files[j].doc.key)
  }

  // ---- What the loop leaves ------------------------------------------------------------------

  /** One file's effect on the catalog: its row carries its hash, the others stay. */
  ghost predicate Ingests(p: Profile, q: Profile, l: Loaded) {
    && q.status == Ready && l.doc.key in q.catalog && q.catalog[l.doc.key].hash == l.doc.hash
    && forall k :: k != l.doc.key ==> (k in q.catalog <==> k in p.catalog) && (k in p.catalog ==> q.catalog[k] == p.catalog[k])
  }

  lemma IngestOneEffect(db: Db, model: string, l: Loaded, now: int)
    requires model in db.profiles && db.profiles[model].status == Ready && l.doc.hash.Some?
    ensures Ingests(db.profiles[model], IngestOne(db, model, l, now).profiles[model], l)
  {
    hide ReplaceWritten, ReplacedTable, IngestItems, NewRow;
    if !IsUnchanged(db, model, l) {
      ReplaceEffect(db, model, l.doc, IngestItems(l.doc, l.chunks), l.assets, false, now);
      HashOfRow(ReplacedTable(db.profiles[model].table, l.doc.key, IngestItems(l.doc, l.chunks)), l.doc, Some(now), now);
    }
  }

  lemma HashOfRow(t: Table, doc: Document, time: Option<int>, now: int)
    ensures NewRow(t, doc, time, now).hash == doc.hash
  {
  }

  ghost predicate SameElsewhere(p: Profile, q: Profile, files: seq<Loaded>, n: nat)
    requires n <= |files|
  {
    forall k :: (forall i :: 0 <= i < n ==> files[i].doc.key != k) ==>
      (k in q.catalog <==> k in p.catalog) && (k in p.catalog ==> q.catalog[k] == p.catalog[k])
  }

  ghost predicate AllPublished(q: Profile, files: seq<Loaded>, n: nat)
    requires n <= |files|
  {
    forall i :: 0 <= i < n ==> files[i].doc.key in q.catalog && q.catalog[files[i].doc.key].hash == files[i].doc.hash
  }

  lemma OneMoreFile(p: Profile, q: Profile, r: Profile, files: seq<Loaded>, n: nat, scan: Scan)
    requires n < |files| && ScansFor(scan, files)
    requires AllPublished(q, files, n) && SameElsewhere(p, q, files, n) && Ingests(q, r, files[n])
    ensures r.status == Ready && AllPublished(r, files, n + 1) && SameElsewhere(p, r, files, n + 1)
  {
  }

  lemma HashKnown(files: seq<Loaded>, i: nat, scan: Scan)
    requires i < |files| && ScansFor(scan, files)
    ensures files[i].doc.hash.Some?
  {
  }

  lemma NothingIngested(p: Profile, files: seq<Loaded>)
    ensures AllPublished(p, files, 0) && SameElsewhere(p, p, files, 0)
  {
  }

  /** After the loop every file is in the catalog under its hash, and nothing else has moved. */
  lemma {:induction false} LoopEffect(db: Db, model: string, files: seq<Loaded>, n: nat, clock: nat -> int, scan: Scan)
    requires n <= |files| && model in db.profiles && db.profiles[model].status == Ready && ScansFor(scan, files)
    ensures var p, q := db.profiles[model], IngestFirst(db, model, files, n, clock).profiles[model];
            q.status == Ready && AllPublished(q, files, n) && SameElsewhere(p, q, files, n)
  {
    hide IngestOne, AllPublished, SameElsewhere, Ingests, ScansFor;
    if n == 0 {
      NothingIngested(db.profiles[model], files);
    } else {
      LoopEffect(db, model, files, n - 1, clock, scan);
      var d := IngestFirst(db, model, files, n - 1, clock);
      HashKnown(files, n - 1, scan);
      IngestOneEffect(d, model, files[n - 1], clock(n - 1));
      OneMoreFile(db.profiles[model], d.profiles[model], IngestOne(d, model, files[n - 1], clock(n - 1)).profiles[model], files, n - 1, scan);
    }
  }

  /** The cleanup of a scan never removes a document the scan has seen. */
  lemma CleanupSparesPresent(db: Db, model: string, files: seq<Loaded>, scan: Scan, order: seq<DocKey>, clock: nat -> int, i: nat)
    requires model in db.profiles && db.profiles[model].status == Ready && ScansFor(scan, files) && i < |files|
    ensures var q := Scanned(db, model, files, scan, order, clock).profiles[model];
            files[i].doc.key in q.catalog && q.catalog[files[i].doc.key].hash == files[i].doc.hash
  {
    hide IngestFirst, DeleteMissing;
    LoopEffect(db, model, files, |files|, clock, scan);
    DeleteMissingEffect(IngestFirst(db, model, files, |files|, clock), model, scan, order);
  }

  /** A document somebody else has published since the scan began survives its cleanup. */
  lemma CleanupSparesNewer(db: Db, model: string, scan: Scan, order: seq<DocKey>, k: DocKey)
    requires model in db.profiles && k in db.profiles[model].catalog
    requires scan.startedAt.Some? && db.profiles[model].catalog[k].updatedAt > scan.startedAt.value
    ensures var q := DeleteMissing(db, model, scan, order).profiles[model];
            k in q.catalog && q.catalog[k] == db.profiles[model].catalog[k]
  {
    hide DeleteMissing;
    DeleteMissingEffect(db, model, scan, order);
  }

  /** A file of a ready profile is skipped exactly when its very version is listed; otherwise it is
      published, chunks, assets and all. */
  lemma WhetherIngested(db: Db, model: string, l: Loaded, now: int)
    requires model in db.profiles && db.profiles[model].status == Ready && l.doc.hash.Some?
    ensures var c := db.profiles[model].catalog;
            IngestOne(db, model, l, now)
              == if l.doc.key in c && c[l.doc.key].hash == l.doc.hash then db
                 else ReplaceWritten(db, model, l.doc, IngestItems(l.doc, l.chunks), l.assets, false, now)
  {
    hide ReplaceWritten, IngestItems;
  }

  predicate IsFile(files: seq<Loaded>, k: DocKey) {
    exists i :: 0 <= i < |files| && files[i].doc.key == k
  }

  /** The list after a scan: the files of the directory, and of what was listed before whatever
      survives the cleanup, unchanged. */
  lemma ScanLeaves(db: Db, model: string, files: seq<Loaded>, scan: Scan, order: seq<DocKey>, clock: nat -> int, k: DocKey)
    requires model in db.profiles && db.profiles[model].status == Ready && ScansFor(scan, files)
    ensures var c := db.profiles[model].catalog;
            var e := Scanned(db, model, files, scan, order, clock).profiles[model].catalog;
            && (k in e <==> IsFile(files, k) || (k in c && Survives(scan, k, c[k])))
            && (k in e && !IsFile(files, k) ==> e[k] == c[k])
  {
    hide IngestFirst, DeleteMissing, Survives;
    LoopEffect(db, model, files, |files|, clock, scan);
    var d := IngestFirst(db, model, files, |files|, clock);
    CleanupLeaves(d, model, scan, order);
    if IsFile(files, k) {
      var i :| 0 <= i < |files| && files[i].doc.key == k;
      PresentSurvives(scan, files, i, d.profiles[model].catalog[k]);
    }
  }

  lemma PresentSurvives(scan: Scan, files: seq<Loaded>, i: nat, row: CatalogRow)
    requires ScansFor(scan, files) && i < |files|
    ensures Survives(scan, files[i].doc.key, row)
  {
  }

  // ---- Scanning again ----------------------------------------------------------------------------

  lemma {:induction false} NothingToIngest(db: Db, model: string, files: seq<Loaded>, n: nat, clock: nat -> int)
    requires n <= |files| && model in db.profiles
    requires forall i :: 0 <= i < |files| ==> IsUnchanged(db, model, files[i])
    ensures IngestFirst(db, model, files, n, clock) == db
  {
    hide Replace;
    if n > 0 {
      NothingToIngest(db, model, files, n - 1, clock);
    }
  }

  /** No file of the directory is left that the next scan would take for missing, if nothing was
      written between the first scan's start and the second's but by the first scan. */
  lemma NothingMissing(db: Db, model: string, files: seq<Loaded>, scan: Scan, again: Scan, order: seq<DocKey>, clock: nat -> int)
    requires model in db.profiles && db.profiles[model].status == Ready && ScansFor(scan, files)
    requires scan.startedAt.Some? && again == scan.(startedAt := again.startedAt)
    requires forall k :: k in db.profiles[model].catalog ==> db.profiles[model].catalog[k].updatedAt <= scan.startedAt.value
    ensures MissingKeys(Scanned(db, model, files, scan, order, clock).profiles[model].catalog, again) == {}
  {
    hide IngestFirst, DeleteMissing;
    LoopEffect(db, model, files, |files|, clock, scan);
    var d := IngestFirst(db, model, files, |files|, clock);
    DeleteMissingEffect(d, model, scan, order);
    var c := Scanned(db, model, files, scan, order, clock).profiles[model].catalog;
    forall k | k in c ensures !Missing(k, c[k], again) {
      assert k in d.profiles[model].catalog && c[k] == d.profiles[model].catalog[k];
      assert k !in MissingKeys(d.profiles[model].catalog, scan);
      assert !Missing(k, c[k], scan);
    }
  }

  /** Ingesting an unchanged directory a second time changes nothing whatsoever. */
  lemma SecondScanIsIdle(db: Db, model: string, files: seq<Loaded>, scan: Scan, again: Scan, order: seq<DocKey>,
                         clock: nat -> int, later: nat -> int, rest: seq<DocKey>)
    requires model in db.profiles && db.profiles[model].status == Ready && ScansFor(scan, files)
    requires scan.startedAt.Some? && again == scan.(startedAt := again.startedAt)
    requires forall k :: k in db.profiles[model].catalog ==> db.profiles[model].catalog[k].updatedAt <= scan.startedAt.value
    ensures var once := Scanned(db, model, files, scan, order, clock);
            model in once.profiles && Scanned(once, model, files, again, rest, later) == once
  {
    hide IngestFirst, MissingKeys;
    var once := Scanned(db, model, files, scan, order, clock);
    forall i | 0 <= i < |files| ensures IsUnchanged(once, model, files[i]) {
      CleanupSparesPresent(db, model, files, scan, order, clock, i);
    }
    NothingToIngest(once, model, files, |files|, later);
    NothingMissing(db, model, files, scan, again, order, clock);
  }

  // ---- The loop, in place --------------------------------------------------------------------------

  function ChunksOf(db: Db, model: string, files: seq<Loaded>, n: nat, clock: nat -> int): nat
    requires n <= |files| && model in db.profiles
  {
    if n == 0 then 0
    else ChunksOf(db, model, files, n - 1, clock)
         + (if IsUnchanged(IngestFirst(db, model, files, n - 1, clock), model, files[n - 1]) then 0 else |files[n - 1].chunks|)
  }

  /** The chunks of the first `n` files of whose version the catalog did not know at the start. */
  function ChunksOfNew(c: Catalog, files: seq<Loaded>, n: nat): nat
    requires n <= |files|
  {
    if n == 0 then 0
    else
      var l := files[n - 1];
      var known := l.doc.key in c && l.doc.hash == c[l.doc.key].hash;
      ChunksOfNew(c, files, n - 1) + if known then 0 else |l.chunks|
  }

  /** The reported number of chunks is that of the files whose version was not yet published when
      the scan began. */
  lemma {:induction false} ChunksReported(db: Db, model: string, files: seq<Loaded>, n: nat, clock: nat -> int, scan: Scan)
    requires n <= |files| && model in db.profiles && db.profiles[model].status == Ready && ScansFor(scan, files)
    ensures ChunksOf(db, model, files, n, clock) == ChunksOfNew(db.profiles[model].catalog, files, n)
  {
    hide IngestFirst, IsUnchanged, ScansFor;
    if n > 0 {
      ChunksReported(db, model, files, n - 1, clock, scan);
      UnchangedSinceStart(db, model, files, n - 1, clock, scan);
    }
  }

  lemma UnchangedSinceStart(db: Db, model: string, files: seq<Loaded>, n: nat, clock: nat -> int, scan: Scan)
    requires n < |files| && model in db.profiles && db.profiles[model].status == Ready && ScansFor(scan, files)
    ensures var c := db.profiles[model].catalog;
            IsUnchanged(IngestFirst(db, model, files, n, clock), model, files[n]) <==> files[n].doc.key in c && files[n].doc.hash == c[files[n].doc.key].hash
  {
    hide IngestFirst, AllPublished;
    LoopEffect(db, model, files, n, clock, scan);
  }

  /** One turn of the loop: skip an unchanged file, publish any other. */
  method IngestFile(db: Database, model: string, l: Loaded, now: int) returns (chunks: nat)
    requires model in db.profiles
    modifies db
    ensures model in db.profiles && db.Snapshot() == IngestOne(old(db.Snapshot()), model, l, now)
    ensures chunks == if IsUnchanged(old(db.Snapshot()), model, l) then 0 else |l.chunks|
  {
    hide Replace, ReplaceOutcome, IngestItems;
    var catalog := db.profiles[model].catalog;
    if l.doc.key in catalog && catalog[l.doc.key].hash == l.doc.hash {
      return 0;
    }
    chunks := |l.chunks|;
    var outcome := db.ReplaceDocument(model, l.doc, IngestItems(l.doc, l.chunks), l.assets, false, now);
  }

  method IngestFiles(db: Database, model: string, files: seq<Loaded>, clock: nat -> int) returns (chunks: nat)
    requires model in db.profiles
    modifies db
    ensures model in db.profiles && db.Snapshot() == IngestFirst(old(db.Snapshot()), model, files, |files|, clock)
    ensures chunks == ChunksOf(old(db.Snapshot()), model, files, |files|, clock)
  {
    hide IngestOne, IsUnchanged;
    ghost var before := db.Snapshot();
    chunks := 0;
    var i := 0;
    while i < |files|
      invariant i <= |files| && model in db.profiles
      invariant db.Snapshot() == IngestFirst(before, model, files, i, clock)
      invariant chunks == ChunksOf(before, model, files, i, clock)
    {
      var more := IngestFile(db, model, files[i], clock(i));
      chunks := chunks + more;
      i := i + 1;
    }
  }

  lemma {:induction false} EnumerationCounts(s: seq<DocKey>, all: set<DocKey>)
    requires Enumerates(s, all)
    ensures |s| == |all|
    decreases |s|
  {
    if s != [] {
      var n := |s| - 1;
      assert (set x | x in s) == (set x | x in s[..n]) + {s[n]};
      assert s[n] !in s[..n];
      EnumerationCounts(s[..n], all - {s[n]});
    }
  }

  /** What a scan did; the cleanup's own number of removed documents is kept beside it. */
  datatype Report = Unavailable | Ingested(documents: nat, chunks: nat, removed: nat)

  /** `ingest_path` on a directory of loaded files, for an existing profile. */
  method IngestDirectory(db: Database, model: string, files: seq<Loaded>, scan: Scan, clock: nat -> int) returns (report: Report, ghost order: seq<DocKey>)
    requires ScansFor(scan, files)
    modifies db
    ensures report.Unavailable? <==> model !in old(db.profiles) || old(db.profiles)[model].status != Ready
    ensures report.Unavailable? ==> db.Snapshot() == old(db.Snapshot())
    ensures report.Ingested? ==>
              && db.Snapshot() == Scanned(old(db.Snapshot()), model, files, scan, order, clock)
              && report.documents == |files|
              && report.chunks == ChunksOf(old(db.Snapshot()), model, files, |files|, clock)
    ensures report.Ingested? ==>
              var ingested := IngestFirst(old(db.Snapshot()), model, files, |files|, clock);
              var missing := MissingKeys(ingested.profiles[model].catalog, scan);
              Enumerates(order, missing) && report.removed == |missing|
  {
    order := [];
    if model !in db.profiles || db.profiles[model].status != Ready {
      return Unavailable, order;
    }
    hide DeleteMissing, MissingKeys, IngestFirst, ChunksOf;
    var chunks := IngestFiles(db, model, files, clock);
    var missing := Certification.InSomeOrder(MissingKeys(db.profiles[model].catalog, scan));
    order := missing;
    EnumerationCounts(missing, MissingKeys(db.profiles[model].catalog, scan));
    var removed := db.DeleteMissingDocuments(model, scan, missing);
    report := Ingested(|files|, chunks, removed);
  }
}
