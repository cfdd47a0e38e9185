/** What a directory cleanup removes, and everything it leaves. */
module RemovedDocuments {
  import opened Text
  import opened Store
  import opened Agreement
  import opened PublishedRows

  /** A listed document survives the cleanup: it is in another list, still present, from another
      directory, written after the scan began, or not where the scan has looked. */
  ghost predicate Survives(scan: Scan, k: DocKey, row: CatalogRow) {
    || k.workspace != scan.workspace || k.chunking != scan.chunking || k.doc in scan.present
    || row.root != Some(scan.root)
    || (scan.startedAt.Some? && scan.startedAt.value < row.updatedAt)
    || Elsewhere(scan.resolve(scan.root), scan.resolve(row.path), scan.recursive)
  }

  /** Not below the directory; or, if only its top level was scanned, not directly in it. */
  ghost predicate Elsewhere(root: seq<string>, parts: seq<string>, recursive: bool) {
    || |parts| < |root| || parts[..|root|] != root
    || (!recursive && !(|parts| == |root| + 1 && root != []) && !(|parts| == |root| <= 1))
  }

  lemma CoveredMeans(scan: Scan, path: string)
    ensures Covered(scan, path) <==> !Elsewhere(scan.resolve(scan.root), scan.resolve(path), scan.recursive)
  {
    var root, parts := scan.resolve(scan.root), scan.resolve(path);
    if |root| <= |parts| {
      assert root <= parts <==> parts[..|root|] == root;
      if root <= parts && |parts| == |root| {
        assert parts == root;
      }
    }
  }

  lemma MissingMeans(scan: Scan, k: DocKey, row: CatalogRow)
    ensures Missing(k, row, scan) <==> !Survives(scan, k, row)
  {
    hide Covered, Elsewhere;
    CoveredMeans(scan, row.path);
  }

  /** In the catalog of the cleaned profile, and not a survivor. */
  ghost predicate Gone(db: Db, model: string, scan: Scan, k: DocKey)
    requires model in db.profiles
  {
    k in db.profiles[model].catalog && !Survives(scan, k, db.profiles[model].catalog[k])
  }

  lemma GoneAreMissing(db: Db, model: string, scan: Scan)
    requires model in db.profiles
    ensures forall k :: k in MissingKeys(db.profiles[model].catalog, scan) <==> Gone(db, model, scan, k)
  {
    hide Missing, Survives;
    var c := db.profiles[model].catalog;
    forall k ensures k in MissingKeys(c, scan) <==> Gone(db, model, scan, k) {
      if k in c {
        MissingMeans(scan, k, c[k]);
      }
    }
  }

  /** Lists and chunks: exactly the survivors stay, with their rows and their chunks, and the
      revision of the scanned list rises exactly when something is gone. */
  lemma CleanupLeaves(db: Db, model: string, scan: Scan, order: seq<DocKey>)
    requires model in db.profiles
    ensures var d := DeleteMissing(db, model, scan, order);
            var p, q := db.profiles[model], d.profiles[model];
            && (forall k :: k in q.catalog <==> k in p.catalog && Survives(scan, k, p.catalog[k]))
            && (forall k :: k in q.catalog ==> q.catalog[k] == p.catalog[k])
            && (forall id :: id in q.table <==> id in p.table && !(exists k :: Gone(db, model, scan, k) && FiledUnder(p.table[id].metadata, k)))
            && (forall id :: id in q.table ==> q.table[id] == p.table[id])
            && q.status == p.status && q.provisioned == p.provisioned
            && d.profiles.Keys == db.profiles.Keys && (forall m :: m in db.profiles && m != model ==> d.profiles[m] == db.profiles[m])
            && d.ready == db.ready && d.workspaces == db.workspaces
            && (forall s: Scope :: Revision(d, s) == Revision(db, s)
                  + if s == Scope(scan.workspace, model, scan.chunking) && (exists k :: Gone(db, model, scan, k)) then 1 else 0)
  {
    hide DeleteMissing, MissingKeys, Survives, FiledUnder, SqlGroup;
    GoneAreMissing(db, model, scan);
    DeleteMissingEffect(db, model, scan, order);
    var p := db.profiles[model];
    forall id | id in p.table
      ensures (SqlGroup(p.table[id].metadata).Some? && SqlGroup(p.table[id].metadata).value in MissingKeys(p.catalog, scan))
         <==> (exists k :: Gone(db, model, scan, k) && FiledUnder(p.table[id].metadata, k))
    {
      FiledUnderOne(db, model, scan, p.table[id].metadata);
    }
    assert (exists k :: Gone(db, model, scan, k)) <==> MissingKeys(p.catalog, scan) != {};
  }

  lemma FiledUnderOne(db: Db, model: string, scan: Scan, m: Metadata)
    requires model in db.profiles
    ensures (SqlGroup(m).Some? && Gone(db, model, scan, SqlGroup(m).value)) <==> (exists k :: Gone(db, model, scan, k) && FiledUnder(m, k))
  {
    hide Survives, FiledUnder, SqlGroup, Gone;
    forall k ensures FiledUnder(m, k) <==> SqlGroup(m) == Some(k) {
      FiledIsGrouped(m, k);
    }
  }

  // ---- Shared rows -----------------------------------------------------------------------------------

  /** The source row of a document goes with it: the catalog is ready and nobody publishes it. */
  ghost predicate Unlisted(db: Db, k: DocKey) {
    db.ready && k in db.sources && !(exists m :: m in db.profiles && k in db.profiles[m].catalog)
  }

  ghost predicate Used(db: Db, a: string) {
    exists x :: x in db.refs && x.asset == a
  }

  /** What pruning some documents leaves. */
  ghost predicate Pruned(db: Db, d: Db, ks: seq<DocKey>) {
    && SameLists(d, db)
    && (forall k :: k in d.sources <==> k in db.sources && !(k in ks && Unlisted(db, k)))
    && (forall k :: k in d.sources ==> d.sources[k] == db.sources[k])
    && (forall a :: a in d.assets <==> a in db.assets && !(db.ready && db.assets[a].key in ks && (!Used(db, a) || Unlisted(db, db.assets[a].key))))
    && (forall a :: a in d.assets ==> d.assets[a] == db.assets[a])
    && (forall x :: x in d.refs <==> x in db.refs && !(x.asset in db.assets && db.assets[x.asset].key in ks && Unlisted(db, db.assets[x.asset].key)))
  }

  lemma PruneOne(db: Db, k: DocKey)
    ensures Pruned(db, Prune(db, k), [k])
  {
    assert Published(DropOrphanAssets(db, k), k) <==> Published(db, k);
    assert forall j :: j in [k] <==> j == k;
  }

  lemma PrunedOn(db: Db, d: Db, e: Db, ks: seq<DocKey>, k: DocKey)
    requires Pruned(db, d, ks) && Pruned(d, e, [k]) && k !in ks
    ensures Pruned(db, e, ks + [k])
  {
    assert forall j :: j in ks + [k] <==> j in ks || j == k;
    forall j | j !in ks ensures Unlisted(d, j) <==> Unlisted(db, j) {
    }
    forall a | a in d.assets ensures Used(d, a) <==> Used(db, a) {
      if Used(db, a) {
        var x :| x in db.refs && x.asset == a;
        assert x in d.refs;
      }
    }
  }

  lemma {:induction false} PrunedAll(db: Db, ks: seq<DocKey>)
    requires forall i, j :: 0 <= i < j < |ks| ==> ks[i] != ks[j]
    ensures Pruned(db, PruneAll(db, ks), ks)
  {
    if ks != [] {
      var n := |ks| - 1;
      PrunedAll(db, ks[..n]);
      PruneOne(PruneAll(db, ks[..n]), ks[n]);
      PrunedOn(db, PruneAll(db, ks[..n]), PruneAll(db, ks), ks[..n], ks[n]);
      assert ks == ks[..n] + [ks[n]];
    }
  }

  /** Some profile still publishes the document when the cleanup has removed what is gone. */
  ghost predicate StillListed(db: Db, model: string, scan: Scan, k: DocKey)
    requires model in db.profiles
  {
    exists m :: m in db.profiles && k in db.profiles[m].catalog && !(m == model && Gone(db, model, scan, k))
  }

  lemma CleanedShared(db: Db, model: string, scan: Scan)
    requires model in db.profiles
    ensures var e := Bump(DeleteRefs(WithProfile(db, model, CleanedProfile(db.profiles[model], scan)), model,
                                     MissingKeys(db.profiles[model].catalog, scan)), Scope(scan.workspace, model, scan.chunking));
            && e.sources == db.sources && e.assets == db.assets && e.ready == db.ready
            && (forall x :: x in e.refs <==> x in db.refs && !(x.model == model && Gone(db, model, scan, x.key)))
            && (forall k :: Published(e, k) <==> StillListed(db, model, scan, k))
  {
    hide MissingKeys, DeleteGroups, Gone;
    GoneAreMissing(db, model, scan);
    var p := db.profiles[model];
    var e := Bump(DeleteRefs(WithProfile(db, model, CleanedProfile(p, scan)), model, MissingKeys(p.catalog, scan)),
                  Scope(scan.workspace, model, scan.chunking));
    forall k, m | m in db.profiles
      ensures k in e.profiles[m].catalog <==> k in db.profiles[m].catalog && !(m == model && Gone(db, model, scan, k))
    {
    }
    assert e.profiles.Keys == db.profiles.Keys;
    forall k ensures Published(e, k) <==> StillListed(db, model, scan, k) {
      if Published(e, k) {
        var m :| m in e.profiles && k in e.profiles[m].catalog;
        assert m in db.profiles && k in db.profiles[m].catalog && !(m == model && Gone(db, model, scan, k));
      }
      if StillListed(db, model, scan, k) {
        var m :| m in db.profiles && k in db.profiles[m].catalog && !(m == model && Gone(db, model, scan, k));
        assert m in e.profiles && k in e.profiles[m].catalog;
      }
    }
  }

  /** Its source row, its assets and their references go with a document that is gone, if the
      catalog is ready and nobody else publishes it. */
  ghost predicate Forgotten(db: Db, model: string, scan: Scan, k: DocKey)
    requires model in db.profiles
  {
    Gone(db, model, scan, k) && db.ready && k in db.sources && !StillListed(db, model, scan, k)
  }

  /** Sources, assets and references: the cleaned profile's references to what is gone are
      deleted; documents nobody lists any more are forgotten; of the gone ones that others
      still list, assets that nobody refers to are. */
  lemma CleanupLeavesShared(db: Db, model: string, scan: Scan, order: seq<DocKey>)
    requires model in db.profiles && Enumerates(order, MissingKeys(db.profiles[model].catalog, scan))
    ensures var d := DeleteMissing(db, model, scan, order);
            && (forall k :: k in d.sources <==> k in db.sources && !Forgotten(db, model, scan, k))
            && (forall k :: k in d.sources ==> d.sources[k] == db.sources[k])
            && (forall x :: x in d.refs <==>
                  && x in db.refs && !(x.model == model && Gone(db, model, scan, x.key))
                  && !(x.asset in db.assets && Forgotten(db, model, scan, db.assets[x.asset].key)))
            && (forall a :: a in d.assets <==>
                  && a in db.assets && !Forgotten(db, model, scan, db.assets[a].key)
                  && !(db.ready && Gone(db, model, scan, db.assets[a].key) && !(exists x :: x in d.refs && x.asset == a)))
            && (forall a :: a in d.assets ==> d.assets[a] == db.assets[a])
  {
    hide MissingKeys, Gone, PruneAll, DeleteGroups, Bump, DeleteRefs, Pruned;
    var p := db.profiles[model];
    GoneAreMissing(db, model, scan);
    OrderIsGone(db, model, scan, order);
    if MissingKeys(p.catalog, scan) == {} {
      NothingGone(db, model, scan);
    } else {
      var e := Bump(DeleteRefs(WithProfile(db, model, CleanedProfile(p, scan)), model, MissingKeys(p.catalog, scan)),
                    Scope(scan.workspace, model, scan.chunking));
      CleanedShared(db, model, scan);
      PrunedAll(e, order);
      assert DeleteMissing(db, model, scan, order) == PruneAll(e, order);
      SharedLeft(db, model, scan, order, e, PruneAll(e, order));
    }
  }

  lemma OrderIsGone(db: Db, model: string, scan: Scan, order: seq<DocKey>)
    requires model in db.profiles && Enumerates(order, MissingKeys(db.profiles[model].catalog, scan))
    ensures forall k :: k in order <==> Gone(db, model, scan, k)
  {
    hide MissingKeys, Gone;
    GoneAreMissing(db, model, scan);
    forall k ensures k in order <==> Gone(db, model, scan, k) {
      assert k in order <==> k in (set x | x in order);
    }
  }

  lemma NothingGone(db: Db, model: string, scan: Scan)
    requires model in db.profiles && MissingKeys(db.profiles[model].catalog, scan) == {}
    ensures forall k :: !Gone(db, model, scan, k)
  {
    hide Gone;
    GoneAreMissing(db, model, scan);
  }

  lemma SharedLeft(db: Db, model: string, scan: Scan, order: seq<DocKey>, e: Db, d: Db)
    requires model in db.profiles && Pruned(e, d, order) && (forall k :: k in order <==> Gone(db, model, scan, k))
    requires e.sources == db.sources && e.assets == db.assets && e.ready == db.ready
    requires forall x :: x in e.refs <==> x in db.refs && !(x.model == model && Gone(db, model, scan, x.key))
    requires forall k :: Published(e, k) <==> StillListed(db, model, scan, k)
    ensures (forall k :: k in d.sources <==> k in db.sources && !Forgotten(db, model, scan, k))
         && (forall k :: k in d.sources ==> d.sources[k] == db.sources[k])
         && (forall x :: x in d.refs <==>
               && x in db.refs && !(x.model == model && Gone(db, model, scan, x.key))
               && !(x.asset in db.assets && Forgotten(db, model, scan, db.assets[x.asset].key)))
         && (forall a :: a in d.assets <==>
               && a in db.assets && !Forgotten(db, model, scan, db.assets[a].key)
               && !(db.ready && Gone(db, model, scan, db.assets[a].key) && !(exists x :: x in d.refs && x.asset == a)))
         && (forall a :: a in d.assets ==> d.assets[a] == db.assets[a])
  {
    hide Gone, StillListed;
    forall k ensures k in order && Unlisted(e, k) <==> Forgotten(db, model, scan, k) {
    }
    forall a | a in db.assets && !Forgotten(db, model, scan, db.assets[a].key)
      ensures Used(e, a) <==> (exists x :: x in d.refs && x.asset == a)
    {
      if Used(e, a) {
        var x :| x in e.refs && x.asset == a;
        assert x in d.refs;
      }
    }
  }
}
