/** Two views of the same writers: transactions on the whole database, and the row statements
    that the interleaved programs execute.  A program run by itself leaves the shared rows as
    its transaction does. */
module Refinement {
  import opened Text
  import opened Store
  import opened Agreement
  import opened Reconcile
  import opened SharedRows
  import Runs
  import Protocol
  import Isolation
  import Writers

  type Row = Protocol.Row
  type Action = Protocol.Action

  // ---- The rows of a database ------------------------------------------------------------

  predicate IsRow(db: Db, r: Row) {
    match r
    case SourceRow(k) => k in db.sources
    case PubRow(k, m) => m in db.profiles && k in db.profiles[m].catalog
    case AssetRow(k, a) => a in db.assets && db.assets[a].key == k
    case RefRow(k, m, a) => Ref(m, k, a) in db.refs
  }

  function RowsOf(db: Db): set<Row> {
    (set k | k in db.sources :: Protocol.SourceRow(k))
    + (set m, k | m in db.profiles && k in db.profiles[m].catalog :: Protocol.PubRow(k, m))
    + (set a | a in db.assets :: Protocol.AssetRow(db.assets[a].key, a))
    + (set r | r in db.refs :: Protocol.RefRow(r.key, r.model, r.asset))
  }

  ghost predicate Shows(view: set<Row>, db: Db) {
    forall r: Row :: r in view <==> IsRow(db, r)
  }

  lemma RowsShow(db: Db, view: set<Row>)
    ensures Shows(view, db) <==> view == RowsOf(db)
  {
    forall r: Row ensures r in RowsOf(db) <==> IsRow(db, r) {
      match r
      case RefRow(k, m, a) => assert Ref(m, k, a) in db.refs <==> r in RowsOf(db);
      case _ =>
    }
  }

  // ---- The rows a program leaves, run by itself ---------------------------------------------

  function RowsAfter(view: set<Row>, steps: seq<Action>): set<Row>
    decreases |steps|
  {
    if steps == [] then view
    else RowsAfter(match steps[0] case Exec(st) => Isolation.Executed(view, st) case _ => view, steps[1..])
  }

  lemma {:induction false} RowsAfterBoth(view: set<Row>, a: seq<Action>, b: seq<Action>)
    ensures RowsAfter(view, a + b) == RowsAfter(RowsAfter(view, a), b)
    decreases |a|
  {
    hide Isolation.Executed;
    if a == [] {
      assert a + b == b;
    } else {
      assert (a + b)[1..] == a[1..] + b;
      RowsAfterBoth(match a[0] case Exec(st) => Isolation.Executed(view, st) case _ => view, a[1..], b);
    }
  }

  predicate Quiet(steps: seq<Action>) {
    forall i :: 0 <= i < |steps| ==> !steps[i].Exec?
  }

  lemma {:induction false} QuietSteps(view: set<Row>, steps: seq<Action>)
    requires Quiet(steps)
    ensures RowsAfter(view, steps) == view
    decreases |steps|
  {
    if steps != [] {
      QuietSteps(view, steps[1..]);
    }
  }

  lemma OneStep(view: set<Row>, st: Protocol.Statement)
    ensures RowsAfter(view, [Protocol.Exec(st)]) == Isolation.Executed(view, st)
  {
    assert [Protocol.Exec(st)][1..] == [];
  }

  lemma TwoSteps(view: set<Row>, a: Protocol.Statement, b: Protocol.Statement)
    ensures RowsAfter(view, [Protocol.Exec(a), Protocol.Exec(b)]) == Isolation.Executed(Isolation.Executed(view, a), b)
  {
    assert [Protocol.Exec(a), Protocol.Exec(b)][1..] == [Protocol.Exec(b)];
    OneStep(Isolation.Executed(view, a), b);
  }

  // ---- Statement by statement ------------------------------------------------------------------

  lemma SourceShown(view: set<Row>, db: Db, doc: Document, keep: bool)
    requires Shows(view, db)
    ensures Shows(Isolation.Executed(view, Protocol.InsertSource(doc.key)), InsertSource(db, doc, keep))
  {
  }

  lemma PublicationShown(view: set<Row>, db: Db, model: string, doc: Document, time: Option<int>, now: int)
    requires model in db.profiles && Shows(view, db)
    ensures Shows(Isolation.Executed(view, Protocol.InsertPub(doc.key, model)), PublishMetadata(db, model, doc, time, now))
  {
    hide PublishMetadata;
    MetadataPublishes(db, model, doc, time, now);
    var d := PublishMetadata(db, model, doc, time, now);
    var v := Isolation.Executed(view, Protocol.InsertPub(doc.key, model));
    forall r: Row ensures r in v <==> IsRow(d, r) {
      assert r in v <==> r in view || r == Protocol.PubRow(doc.key, model);
    }
  }

  lemma MetadataPublishes(db: Db, model: string, doc: Document, time: Option<int>, now: int)
    requires model in db.profiles
    ensures var d := PublishMetadata(db, model, doc, time, now);
            && d.profiles == db.profiles[model := d.profiles[model]]
            && d.profiles[model].catalog.Keys == db.profiles[model].catalog.Keys + {doc.key}
            && d.sources == db.sources && d.assets == db.assets && d.refs == db.refs
  {
    hide NewRow, PublicChanges;
  }

  lemma RefsDeleted(view: set<Row>, db: Db, model: string, k: DocKey)
    requires Shows(view, db)
    ensures Shows(Isolation.Executed(view, Protocol.DeleteRefs(k, model)), DeleteRefs(db, model, {k}))
  {
  }

  lemma AssetShown(owner: AssetOwner, view: set<Row>, db: Db, model: string, k: DocKey, a: AssetRecord)
    requires Shows(view, db) && SharedSound(owner, db) && owner(a.id) == k
    ensures var v := Isolation.Executed(view, Protocol.InsertAsset(k, a.id));
            Shows(Isolation.Executed(v, Protocol.InsertRef(k, model, a.id)), InsertAsset(db, model, k, a))
  {
  }

  /** An asset or source is pruned in one view exactly when it is in the other. */
  lemma AssetsPruned(owner: AssetOwner, view: set<Row>, db: Db, k: DocKey)
    requires Shows(view, db) && SharedSound(owner, db)
    ensures Shows(Isolation.Executed(view, Protocol.PruneAssets(k)), DropOrphanAssets(db, k))
  {
    forall a | a in db.assets && db.assets[a].key == k
      ensures Protocol.Referenced(view, k, a) <==> Referenced(db, a)
    {
      if Referenced(db, a) {
        var r :| r in db.refs && r.asset == a;
        assert Protocol.RefRow(k, r.model, a) in view;
      }
    }
  }

  lemma SourcePruned(owner: AssetOwner, view: set<Row>, db: Db, k: DocKey)
    requires Shows(view, db) && SharedSound(owner, db)
    ensures Shows(Isolation.Executed(view, Protocol.PruneSource(k)), DropOrphanSource(db, k))
  {
    assert Protocol.Published(view, k) <==> Published(db, k) by {
      if Published(db, k) {
        var m :| m in db.profiles && k in db.profiles[m].catalog;
        assert Protocol.PubRow(k, m) in view;
      }
    }
  }

  // ---- Pruning and publication ---------------------------------------------------------------

  /** Dropping assets keeps the database sound, so the source can follow. */
  lemma AssetsDroppedSound(owner: AssetOwner, db: Db, k: DocKey)
    requires SharedSound(owner, db)
    ensures SharedSound(owner, DropOrphanAssets(db, k))
  {
    forall r | r in db.refs ensures r.asset in DropOrphanAssets(db, k).assets {
      assert Referenced(db, r.asset);
    }
  }

  lemma PruneShown(owner: AssetOwner, view: set<Row>, db: Db, k: DocKey)
    requires Shows(view, db) && SharedSound(owner, db)
    ensures Shows(RowsAfter(view, if db.ready then Writers.PruneSteps(k) else []), Prune(db, k))
  {
    hide Shows, SharedSound, DropOrphanAssets, DropOrphanSource, Isolation.Executed;
    if db.ready {
      AssetsPruned(owner, view, db, k);
      AssetsDroppedSound(owner, db, k);
      SourcePruned(owner, Isolation.Executed(view, Protocol.PruneAssets(k)), DropOrphanAssets(db, k), k);
      TwoSteps(view, Protocol.PruneAssets(k), Protocol.PruneSource(k));
    }
  }

  function Ids(assets: seq<AssetRecord>): seq<string> {
    seq(|assets|, i requires 0 <= i < |assets| => assets[i].id)
  }

  lemma {:induction false} StepsOfAssets(m: string, k: DocKey, a: seq<string>, last: string)
    ensures Writers.AssetSteps(m, k, a + [last])
              == Writers.AssetSteps(m, k, a) + [Protocol.Exec(Protocol.InsertAsset(k, last)), Protocol.Exec(Protocol.InsertRef(k, m, last))]
  {
    if a == [] {
      assert ([last])[1..] == [];
    } else {
      StepsOfAssets(m, k, a[1..], last);
      assert (a + [last])[1..] == a[1..] + [last];
    }
  }

  lemma {:induction false} AssetsShown(owner: AssetOwner, view: set<Row>, db: Db, m: string, k: DocKey, assets: seq<AssetRecord>)
    requires Shows(view, db) && SharedSound(owner, db) && Owned(owner, assets, k) && k in db.sources
    ensures Shows(RowsAfter(view, Writers.AssetSteps(m, k, Ids(assets))), InsertAssets(db, m, k, assets))
  {
    hide Shows, SharedSound, Isolation.Executed, InsertAsset;
    if assets == [] {
      assert Ids(assets) == [];
    } else {
      var n := |assets| - 1;
      var a := assets[n];
      AssetsShown(owner, view, db, m, k, assets[..n]);
      InsertAssetsKeeps(owner, db, m, k, assets[..n]);
      assert Ids(assets) == Ids(assets[..n]) + [a.id];
      StepsOfAssets(m, k, Ids(assets[..n]), a.id);
      var mid := RowsAfter(view, Writers.AssetSteps(m, k, Ids(assets[..n])));
      AssetShown(owner, mid, InsertAssets(db, m, k, assets[..n]), m, k, a);
      TwoSteps(mid, Protocol.InsertAsset(k, a.id), Protocol.InsertRef(k, m, a.id));
      RowsAfterBoth(view, Writers.AssetSteps(m, k, Ids(assets[..n])),
                    [Protocol.Exec(Protocol.InsertAsset(k, a.id)), Protocol.Exec(Protocol.InsertRef(k, m, a.id))]);
    }
  }

  /** The program of one publication, its guards already decided. */
  function PublicationOf(db: Db, model: string, doc: Document, assets: seq<AssetRecord>, preserve: bool): Writers.Publication
    requires model in db.profiles
  {
    if ReplaceOutcome(db, model, doc, preserve) == Outcome.Written
    then Writers.Publication.Written(model, doc.key, Ids(assets), db.ready)
    else Writers.Skipped(model, doc.key)
  }

  /** The rows, before asset references: a source and a publication. */
  lemma RowsShown(view: set<Row>, db: Db, model: string, doc: Document, items: seq<Item>, preserve: bool, now: int)
    requires model in db.profiles && Shows(view, db)
    ensures var steps := [Protocol.Exec(Protocol.InsertSource(doc.key)), Protocol.Exec(Protocol.InsertPub(doc.key, model))];
            Shows(RowsAfter(view, steps), ReplaceRows(db, model, doc, items, preserve, now))
  {
    hide ReplacedTable, PublishMetadata, InsertSource, Isolation.Executed, IsRow;
    var p := db.profiles[model];
    var d := WithProfile(db, model, p.(table := ReplacedTable(p.table, doc.key, items)));
    SameRows(db, d, view);
    SourceShown(view, d, doc, preserve);
    SourceKeepsProfiles(d, doc, preserve);
    PublicationShown(Isolation.Executed(view, Protocol.InsertSource(doc.key)), InsertSource(d, doc, preserve), model, doc,
                     if preserve then doc.time else Some(now), now);
    TwoSteps(view, Protocol.InsertSource(doc.key), Protocol.InsertPub(doc.key, model));
  }

  lemma SourceKeepsProfiles(db: Db, doc: Document, keep: bool)
    ensures InsertSource(db, doc, keep).profiles == db.profiles
  {
  }

  /** Chunk tables, revisions and statuses are no shared rows. */
  lemma SameRows(db: Db, d: Db, view: set<Row>)
    requires db.profiles.Keys == d.profiles.Keys && forall m :: m in db.profiles ==> d.profiles[m].catalog.Keys == db.profiles[m].catalog.Keys
    requires d.sources == db.sources && d.assets == db.assets && d.refs == db.refs
    ensures Shows(view, db) <==> Shows(view, d)
  {
    forall r: Row ensures IsRow(db, r) <==> IsRow(d, r) {
    }
  }

  lemma ReplaceShown(owner: AssetOwner, view: set<Row>, db: Db, model: string, doc: Document, items: seq<Item>,
                     assets: seq<AssetRecord>, preserve: bool, now: int)
    requires model in db.profiles && Shows(view, db) && SharedSound(owner, db) && Owned(owner, assets, doc.key)
    ensures Shows(RowsAfter(view, Writers.PublicationSteps(PublicationOf(db, model, doc, assets, preserve))),
                  Replace(db, model, doc, items, assets, preserve, now))
  {
    hide Shows, SharedSound, Owned, ReplaceRows, Prune, DeleteRefs, Isolation.Executed, ReplaceOutcome, InsertAssets, Writers.AssetSteps, Writers.PruneSteps;
    var k := doc.key;
    var locks := [Protocol.LockTx(Protocol.ProfileLock(model)), Protocol.LockTx(Protocol.DocLock(k))];
    if ReplaceOutcome(db, model, doc, preserve) == Outcome.Written {
      WrittenShown(owner, view, db, model, doc, items, assets, preserve, now);
      Framed(view, locks, WrittenSteps(model, k, Ids(assets), db.ready), [Protocol.EndTx]);
    } else {
      Framed(view, locks, [], [Protocol.EndTx]);
    }
  }

  /** What a publication executes between its locks and its commit. */
  function WrittenSteps(m: string, k: DocKey, assets: seq<string>, prune: bool): seq<Action> {
    [Protocol.Exec(Protocol.InsertSource(k)), Protocol.Exec(Protocol.InsertPub(k, m)), Protocol.Exec(Protocol.DeleteRefs(k, m))]
    + Writers.AssetSteps(m, k, assets) + (if prune then Writers.PruneSteps(k) else [])
  }

  lemma Framed(view: set<Row>, before: seq<Action>, steps: seq<Action>, after: seq<Action>)
    requires Quiet(before) && Quiet(after)
    ensures RowsAfter(view, before + steps + after) == RowsAfter(view, steps)
  {
    RowsAfterBoth(view, before + steps, after);
    RowsAfterBoth(view, before, steps);
    QuietSteps(view, before);
    QuietSteps(RowsAfter(view, before + steps), after);
  }

  lemma WrittenShown(owner: AssetOwner, view: set<Row>, db: Db, model: string, doc: Document, items: seq<Item>,
                     assets: seq<AssetRecord>, preserve: bool, now: int)
    requires model in db.profiles && Shows(view, db) && SharedSound(owner, db) && Owned(owner, assets, doc.key)
    ensures Shows(RowsAfter(view, WrittenSteps(model, doc.key, Ids(assets), db.ready)),
                  ReplaceWritten(db, model, doc, items, assets, preserve, now))
  {
    hide Shows, SharedSound, Owned, Prune, DeleteRefs, Isolation.Executed, PublishMetadata, ReplacedTable, Writers.AssetSteps, Writers.PruneSteps,
      ReplaceRows, InsertAssets, RowsAfter;
    var k := doc.key;
    var d := ReplaceRows(db, model, doc, items, preserve, now);
    RowsShown(view, db, model, doc, items, preserve, now);
    ReplaceRowsKeeps(owner, db, model, doc, items, preserve, now);
    var first := [Protocol.Exec(Protocol.InsertSource(k)), Protocol.Exec(Protocol.InsertPub(k, model))];
    var one := RowsAfter(view, first);
    var second := [Protocol.Exec(Protocol.DeleteRefs(k, model))];
    var e := DeleteRefs(d, model, {k});
    RefsDeleted(one, d, model, k);
    OneStep(one, Protocol.DeleteRefs(k, model));
    DeleteRefsKeeps(owner, d, model, {k});
    var two := RowsAfter(one, second);
    RowsAfterBoth(view, first, second);
    DeleteRefsSources(d, model, {k});
    var third := Writers.AssetSteps(model, k, Ids(assets));
    AssetsShown(owner, two, e, model, k, assets);
    InsertAssetsKeeps(owner, e, model, k, assets);
    var f := InsertAssets(e, model, k, assets);
    RowsAfterBoth(view, first + second, third);
    PruneShown(owner, RowsAfter(two, third), f, k);
    assert f.ready == db.ready by {
      ReadyStays(db, model, doc, items, assets, preserve, now);
    }
    var fourth := if db.ready then Writers.PruneSteps(k) else [];
    RowsAfterBoth(view, first + second + third, fourth);
    assert WrittenSteps(model, k, Ids(assets), db.ready) == first + second + third + fourth;
  }

  lemma DeleteRefsSources(db: Db, model: string, ks: set<DocKey>)
    ensures DeleteRefs(db, model, ks).sources == db.sources
  {
  }

  lemma ReadyStays(db: Db, model: string, doc: Document, items: seq<Item>, assets: seq<AssetRecord>, preserve: bool, now: int)
    requires model in db.profiles
    ensures InsertAssets(DeleteRefs(ReplaceRows(db, model, doc, items, preserve, now), model, {doc.key}), model, doc.key, assets).ready == db.ready
  {
    AssetsKeepReady(DeleteRefs(ReplaceRows(db, model, doc, items, preserve, now), model, {doc.key}), model, doc.key, assets);
  }

  lemma {:induction false} AssetsKeepReady(db: Db, m: string, k: DocKey, assets: seq<AssetRecord>)
    ensures InsertAssets(db, m, k, assets).ready == db.ready
  {
    if assets != [] {
      AssetsKeepReady(db, m, k, assets[..|assets| - 1]);
    }
  }

  // ---- Cleanup -----------------------------------------------------------------------------------

  lemma {:induction false} PublicationsDeleted(view: set<Row>, m: string, keys: seq<DocKey>)
    ensures RowsAfter(view, Writers.DeletePubs(m, keys))
              == set r | r in view && !((r.PubRow? || r.RefRow?) && r.model == m && r.key in keys)
    decreases |keys|
  {
    if keys != [] {
      var steps := Writers.DeletePubs(m, keys);
      assert steps[0] == Protocol.Exec(Protocol.DeletePub(keys[0], m)) && steps[1..] == Writers.DeletePubs(m, keys[1..]);
      PublicationsDeleted(Isolation.Executed(view, Protocol.DeletePub(keys[0], m)), m, keys[1..]);
      assert keys == [keys[0]] + keys[1..];
    }
  }

  lemma {:induction false} StepsOfPrunes(keys: seq<DocKey>, last: DocKey)
    ensures Writers.PruneDocs(keys + [last]) == Writers.PruneDocs(keys) + Writers.PruneSteps(last)
  {
    if keys == [] {
      assert ([] + [last])[1..] == [];
    } else {
      StepsOfPrunes(keys[1..], last);
      assert (keys + [last])[1..] == keys[1..] + [last];
    }
  }

  lemma {:induction false} PrunesShown(owner: AssetOwner, view: set<Row>, db: Db, keys: seq<DocKey>)
    requires Shows(view, db) && SharedSound(owner, db)
    ensures Shows(RowsAfter(view, if db.ready then Writers.PruneDocs(keys) else []), PruneAll(db, keys))
    ensures PruneAll(db, keys).ready == db.ready
  {
    hide Shows, SharedSound, Writers.PruneSteps;
    if keys != [] {
      var n := |keys| - 1;
      PrunesShown(owner, view, db, keys[..n]);
      PruneAllKeeps(owner, db, keys[..n]);
      assert keys == keys[..n] + [keys[n]];
      StepsOfPrunes(keys[..n], keys[n]);
      PruneShown(owner, RowsAfter(view, if db.ready then Writers.PruneDocs(keys[..n]) else []), PruneAll(db, keys[..n]), keys[n]);
      RowsAfterBoth(view, Writers.PruneDocs(keys[..n]), Writers.PruneSteps(keys[n]));
    }
  }

  lemma {:induction false} LocksAreQuiet(keys: seq<DocKey>)
    ensures Quiet(Writers.LockDocs(keys))
  {
    if keys != [] {
      LocksAreQuiet(keys[..|keys| - 1]);
    }
  }

  /** A cleanup before it prunes. */
  function Unpublished(db: Db, model: string, scan: Scan): Db
    requires model in db.profiles
  {
    var p := db.profiles[model];
    Bump(DeleteRefs(WithProfile(db, model, CleanedProfile(p, scan)), model, MissingKeys(p.catalog, scan)),
         Scope(scan.workspace, model, scan.chunking))
  }

  lemma UnpublishedSound(owner: AssetOwner, db: Db, model: string, scan: Scan)
    requires model in db.profiles && SharedSound(owner, db)
    ensures SharedSound(owner, Unpublished(db, model, scan))
  {
    hide MissingKeys, DeleteGroups;
    var d := WithProfile(db, model, CleanedProfile(db.profiles[model], scan));
    assert SharedSound(owner, d);
    DeleteRefsKeeps(owner, d, model, MissingKeys(db.profiles[model].catalog, scan));
  }

  lemma UnpublishedShown(view: set<Row>, db: Db, model: string, scan: Scan, order: seq<DocKey>)
    requires model in db.profiles && Shows(view, db)
    requires (set k | k in order) == MissingKeys(db.profiles[model].catalog, scan)
    ensures Shows(RowsAfter(view, Writers.DeletePubs(model, order)), Unpublished(db, model, scan))
  {
    hide MissingKeys, DeleteGroups, Writers.DeletePubs;
    var gone := MissingKeys(db.profiles[model].catalog, scan);
    assert forall k :: k in order <==> k in gone;
    PublicationsDeleted(view, model, order);
    var d := Unpublished(db, model, scan);
    forall r: Row
      ensures r in RowsAfter(view, Writers.DeletePubs(model, order)) <==> IsRow(d, r)
    {
    }
  }

  lemma CleanupShown(owner: AssetOwner, view: set<Row>, db: Db, model: string, scan: Scan, keys: seq<DocKey>, order: seq<DocKey>)
    requires model in db.profiles && Shows(view, db) && SharedSound(owner, db)
    requires Enumerates(order, MissingKeys(db.profiles[model].catalog, scan))
    ensures Shows(RowsAfter(view, Writers.Program(Writers.Cleanup(model, keys, order, db.ready))), DeleteMissing(db, model, scan, order))
  {
    hide SharedSound, IsRow, Shows, MissingKeys, DeleteGroups;
    var locks := [Protocol.TakeConn, Protocol.LockTx(Protocol.ProfileLock(model))] + Writers.LockDocs(keys);
    var deletes := Writers.DeletePubs(model, order);
    var prunes := if db.ready then Writers.PruneDocs(order) else [];
    var end := [Protocol.EndTx, Protocol.GiveConn];
    LocksAreQuiet(keys);
    Framed(view, locks, deletes + prunes, end);
    assert Writers.Program(Writers.Cleanup(model, keys, order, db.ready)) == locks + (deletes + prunes) + end;
    RowsAfterBoth(view, deletes, prunes);
    if MissingKeys(db.profiles[model].catalog, scan) == {} {
      assert forall i :: 0 <= i < |order| ==> order[i] in MissingKeys(db.profiles[model].catalog, scan);
      assert order == [];
    } else {
      UnpublishedShown(view, db, model, scan, order);
      UnpublishedSound(owner, db, model, scan);
      PrunesShown(owner, RowsAfter(view, deletes), Unpublished(db, model, scan), order);
    }
  }

  // ---- Certification --------------------------------------------------------------------------------

  lemma {:induction false} CheckedRefs(view: set<Row>, m: string, k: DocKey, assets: seq<string>)
    ensures RowsAfter(view, Writers.CheckedAssetSteps(m, k, assets)) == view + set a | a in assets :: Protocol.RefRow(k, m, a)
    decreases |assets|
  {
    if assets != [] {
      var a := assets[0];
      var two := [Protocol.Exec(Protocol.CheckAsset(k, a)), Protocol.Exec(Protocol.InsertRef(k, m, a))];
      RowsAfterBoth(view, two, Writers.CheckedAssetSteps(m, k, assets[1..]));
      TwoSteps(view, Protocol.CheckAsset(k, a), Protocol.InsertRef(k, m, a));
      assert Isolation.Executed(Isolation.Executed(view, Protocol.CheckAsset(k, a)), Protocol.InsertRef(k, m, a))
          == view + {Protocol.RefRow(k, m, a)};
      CheckedRefs(view + {Protocol.RefRow(k, m, a)}, m, k, assets[1..]);
      assert assets == [a] + assets[1..];
    }
  }

  lemma {:induction false} Listed(s: set<string>) returns (q: seq<string>)
    ensures forall x :: x in q <==> x in s
  {
    if s == {} {
      q := [];
    } else {
      var x :| x in s;
      var rest := Listed(s - {x});
      q := rest + [x];
    }
  }

  /** One certified document, as the row program repairs it. */
  lemma GroupShown(view: set<Row>, db: Db, v: Table, model: string, g: Group, clean: Cleaner, now: int, assets: seq<string>)
    requires model in db.profiles && Member(v, g.first, g.key) && Shows(view, db) && (set a | a in assets) == AssetIds(v, g.key)
    ensures Shows(RowsAfter(view, Writers.RepairSteps(Writers.Certified(model, g.key, assets))),
                  ApplyGroup(db, v, model, g, clean, now))
  {
    hide Shows, IsRow, PublishMetadata, InsertSource, DeleteRefs, LegacyDocument, WithTime, WithRoot, AssetIds,
      Writers.CheckedAssetSteps, Isolation.Executed;
    var doc := WithTime(db, model, WithRoot(db, LegacyDocument(v, g, clean)));
    LegacyKey(db, v, model, g, clean);
    SourceKeepsProfiles(db, doc, true);
    var k := g.key;
    var first := [Protocol.Exec(Protocol.InsertSource(k)), Protocol.Exec(Protocol.InsertPub(k, model))];
    var second := [Protocol.Exec(Protocol.DeleteRefs(k, model))];
    var third := Writers.CheckedAssetSteps(model, k, assets);
    var d := PublishMetadata(InsertSource(db, doc, true), model, doc, doc.time, now);
    SourceShown(view, db, doc, true);
    PublicationShown(Isolation.Executed(view, Protocol.InsertSource(k)), InsertSource(db, doc, true), model, doc, doc.time, now);
    TwoSteps(view, Protocol.InsertSource(k), Protocol.InsertPub(k, model));
    var one := RowsAfter(view, first);
    RefsDeleted(one, d, model, k);
    OneStep(one, Protocol.DeleteRefs(k, model));
    RowsAfterBoth(view, first, second);
    RowsAfterBoth(view, first + second, third);
    CheckedRefs(RowsAfter(one, second), model, k, assets);
    RefsAdded(RowsAfter(one, second), DeleteRefs(d, model, {k}), model, k, assets, AssetIds(v, k));
    assert Writers.RepairSteps(Writers.Certified(model, k, assets)) == first + second + third;
  }

  lemma RefsAdded(view: set<Row>, db: Db, model: string, k: DocKey, assets: seq<string>, ids: set<string>)
    requires Shows(view, db) && (set a | a in assets) == ids
    ensures Shows(view + (set a | a in assets :: Protocol.RefRow(k, model, a)),
                  db.(refs := db.refs + (set x | x in ids :: Ref(model, k, x))))
  {
    assert forall a :: a in assets <==> a in ids;
  }

  lemma RowDropped(view: set<Row>, db: Db, model: string, k: DocKey)
    requires model in db.profiles && Shows(view, db)
    ensures Shows(RowsAfter(view, Writers.RepairSteps(Writers.Dropped(model, k))), DropRow(db, model, k))
  {
    OneStep(view, Protocol.DeletePub(k, model));
  }

  lemma {:induction false} RepairsOfBoth(a: seq<Writers.Repair>, b: seq<Writers.Repair>)
    ensures Writers.AllRepairs(a + b) == Writers.AllRepairs(a) + Writers.AllRepairs(b)
    decreases |a|
  {
    if a == [] {
      assert a + b == b;
    } else {
      assert (a + b)[1..] == a[1..] + b;
      RepairsOfBoth(a[1..], b);
    }
  }

  /** One repair more. */
  lemma RepairsOn(view: set<Row>, repairs: seq<Writers.Repair>, r: Writers.Repair)
    ensures RowsAfter(view, Writers.AllRepairs(repairs + [r])) == RowsAfter(RowsAfter(view, Writers.AllRepairs(repairs)), Writers.RepairSteps(r))
  {
    RepairsOfBoth(repairs, [r]);
    assert [r][1..] == [];
    assert Writers.AllRepairs([r]) == Writers.RepairSteps(r);
    RowsAfterBoth(view, Writers.AllRepairs(repairs), Writers.RepairSteps(r));
  }

  ghost predicate RepairsFor(repairs: seq<Writers.Repair>, names: set<string>) {
    forall i :: 0 <= i < |repairs| ==> repairs[i].model in names
  }

  lemma {:induction false} GroupsShown(view: set<Row>, db: Db, v: Table, model: string, groups: seq<Group>, clean: Cleaner, now: int)
      returns (repairs: seq<Writers.Repair>)
    requires model in db.profiles && Members(v, groups) && Shows(view, db)
    ensures Shows(RowsAfter(view, Writers.AllRepairs(repairs)), ApplyGroups(db, v, model, groups, clean, now))
    ensures RepairsFor(repairs, {model})
  {
    hide Shows, ApplyGroup, Writers.RepairSteps;
    if groups == [] {
      repairs := [];
    } else {
      var n := |groups| - 1;
      var before := GroupsShown(view, db, v, model, groups[..n], clean, now);
      var assets := Listed(AssetIds(v, groups[n].key));
      GroupShown(RowsAfter(view, Writers.AllRepairs(before)), ApplyGroups(db, v, model, groups[..n], clean, now), v, model,
                 groups[n], clean, now, assets);
      repairs := before + [Writers.Certified(model, groups[n].key, assets)];
      RepairsOn(view, before, Writers.Certified(model, groups[n].key, assets));
    }
  }

  lemma {:induction false} DropsShown(view: set<Row>, db: Db, model: string, keys: seq<DocKey>) returns (repairs: seq<Writers.Repair>)
    requires model in db.profiles && Shows(view, db)
    ensures Shows(RowsAfter(view, Writers.AllRepairs(repairs)), DropRows(db, model, keys))
    ensures RepairsFor(repairs, {model})
  {
    hide Shows, DropRow, Writers.RepairSteps;
    if keys == [] {
      repairs := [];
    } else {
      var n := |keys| - 1;
      var before := DropsShown(view, db, model, keys[..n]);
      RowDropped(RowsAfter(view, Writers.AllRepairs(before)), DropRows(db, model, keys[..n]), model, keys[n]);
      repairs := before + [Writers.Dropped(model, keys[n])];
      RepairsOn(view, before, Writers.Dropped(model, keys[n]));
    }
  }

  lemma ProfileShown(view: set<Row>, db: Db, model: string, plan: Plan, clean: Cleaner, now: int) returns (repairs: seq<Writers.Repair>)
    requires model in db.profiles && PlanFor(db, model, plan) && Shows(view, db)
    ensures Shows(RowsAfter(view, Writers.AllRepairs(repairs)), ReconcileProfile(db, model, plan, clean, now))
    ensures RepairsFor(repairs, {model})
  {
    hide Shows, View, Rebuilt, ApplyGroups, DropRows, IsRow;
    var p := db.profiles[model];
    var d := WithProfile(db, model, p.(table := Rebuilt(db.sources, p.table)));
    SameRows(db, d, view);
    var certified := GroupsShown(view, d, View(db.sources, p.table), model, plan.groups, clean, now);
    var dropped := DropsShown(RowsAfter(view, Writers.AllRepairs(certified)), ReconcileGroups(db, model, plan.groups, clean, now),
                              model, plan.stale);
    repairs := certified + dropped;
    RepairsOfBoth(certified, dropped);
    RowsAfterBoth(view, Writers.AllRepairs(certified), Writers.AllRepairs(dropped));
  }

  lemma {:induction false} CertificationShown(view: set<Row>, db: Db, work: seq<(string, Plan)>, clean: Cleaner, now: int)
      returns (repairs: seq<Writers.Repair>)
    requires Shows(view, db) && Runs.CertifyProfiles(db, work, clean, now).Some?
    ensures Shows(RowsAfter(view, Writers.AllRepairs(repairs)), Runs.CertifyProfiles(db, work, clean, now).value)
    ensures RepairsFor(repairs, Runs.WorkNames(work))
  {
    hide Shows, ReconcileProfile, PlanFor, Certifiable;
    if work == [] {
      repairs := [];
    } else {
      var n := |work| - 1;
      var d := Runs.CertifyProfiles(db, work[..n], clean, now).value;
      repairs := CertificationShown(view, db, work[..n], clean, now);
      assert work == work[..n] + [work[n]];
      if d.profiles[work[n].0].provisioned {
        var before := repairs;
        var more := ProfileShown(RowsAfter(view, Writers.AllRepairs(before)), d, work[n].0, work[n].1, clean, now);
        repairs := before + more;
        RepairsOfBoth(before, more);
        RowsAfterBoth(view, Writers.AllRepairs(before), Writers.AllRepairs(more));
      }
    }
  }

  // ---- Every step ---------------------------------------------------------------------------------------

  lemma {:induction false} ProfileLocksAreQuiet(names: seq<string>)
    ensures Quiet(Writers.LockProfiles(names)) && Quiet(Writers.UnlockProfiles(names))
  {
    if names != [] {
      ProfileLocksAreQuiet(names[..|names| - 1]);
    }
  }

  lemma ReconcileFrame(view: set<Row>, names: seq<string>, repairs: seq<Writers.Repair>)
    ensures RowsAfter(view, Writers.Program(Writers.Reconcile(names, repairs))) == RowsAfter(view, Writers.AllRepairs(repairs))
  {
    ProfileLocksAreQuiet(names);
    var locks, unlocks := [Protocol.TakeConn] + Writers.LockProfiles(names), [Protocol.EndTx] + Writers.UnlockProfiles(names) + [Protocol.GiveConn];
    Framed(view, locks, Writers.AllRepairs(repairs), unlocks);
    assert Writers.Program(Writers.Reconcile(names, repairs)) == locks + Writers.AllRepairs(repairs) + unlocks;
  }

  lemma WarmFrame(view: set<Row>, model: string, pub: Writers.Publication)
    ensures RowsAfter(view, Writers.Program(Writers.Warm([model], [pub]))) == RowsAfter(view, Writers.PublicationSteps(pub))
  {
    ProfileLocksAreQuiet([model]);
    var locks, unlocks := [Protocol.TakeConn] + Writers.LockProfiles([model]), Writers.UnlockProfiles([model]) + [Protocol.GiveConn];
    assert Writers.AllPublications([pub]) == Writers.PublicationSteps(pub) by {
      assert [pub][1..] == [];
    }
    Framed(view, locks, Writers.AllPublications([pub]), unlocks);
    assert Writers.Program(Writers.Warm([model], [pub])) == locks + Writers.AllPublications([pub]) + unlocks;
  }

  lemma IngestFrame(view: set<Row>, pub: Writers.Publication)
    ensures RowsAfter(view, Writers.Program(Writers.Ingest(pub))) == RowsAfter(view, Writers.PublicationSteps(pub))
  {
    Framed(view, [Protocol.TakeConn], Writers.PublicationSteps(pub), [Protocol.GiveConn]);
  }

  lemma IdleProgram(view: set<Row>)
    ensures RowsAfter(view, Writers.Program(Writers.Warm([], []))) == view
  {
    QuietSteps(view, Writers.Program(Writers.Warm([], [])));
  }

  /** The writer's job that a step stands for; a step that writes no shared row has none. */
  ghost predicate JobOf(db: Db, step: Runs.Step, names: seq<string>, keys: seq<DocKey>, job: Writers.Job) {
    match step
    case Ingest(m, doc, _, assets, _) => m in db.profiles ==> job == Writers.Ingest(PublicationOf(db, m, doc, assets, false))
    case WarmPublish(m, doc, _, assets, _) => m in db.profiles ==> job == Writers.Warm([m], [PublicationOf(db, m, doc, assets, true)])
    case Cleanup(m, _, order) => m in db.profiles ==> job == Writers.Cleanup(m, keys, order, db.ready)
    case Certification(_, _, _) => job.Reconcile? && job.profiles == names && RepairsFor(job.repairs, db.profiles.Keys)
    case _ => job == Writers.Warm([], [])
  }

  /** A cleanup visits the documents it removes in some order, and locks them in sorted order. */
  ghost predicate Ordered(db: Db, step: Runs.Step, keys: seq<DocKey>) {
    step.Cleanup? && step.model in db.profiles ==>
      && Enumerates(step.order, MissingKeys(db.profiles[step.model].catalog, step.scan))
      && Writers.SortedKeys(keys) && forall k :: k in keys <==> k in step.order
  }

  /** Each transaction does to the shared rows what its writer's program does, and the program
      is one of those that keep the discipline of locks. */
  lemma EveryStepHasItsProgram(owner: AssetOwner, db: Db, step: Runs.Step, names: seq<string>, keys: seq<DocKey>)
      returns (job: Writers.Job)
    requires SharedSound(owner, db) && AssetsAllowed(owner, step) && Ordered(db, step, keys)
    requires Writers.SortedNames(names) && (set n | n in names) == db.profiles.Keys
    ensures JobOf(db, step, names, keys, job) && Writers.Proper(db.profiles.Keys, job)
    ensures RowsAfter(RowsOf(db), Writers.Program(job)) == RowsOf(Runs.Next(db, step))
  {
    hide SharedSound, Replace, DeleteMissing, Runs.Certify, Runs.IngestItems, RowsOf, IsRow, Shows, RowsAfter, Owned, MissingKeys,
      Enumerates, ReplaceOutcome, Writers.Program, Writers.PublicationSteps, Writers.SortedKeys;
    var view := RowsOf(db);
    RowsShow(db, view);
    job := Writers.Warm([], []);
    IdleProgram(view);
    match step {
      case Ingest(m, doc, chunks, assets, now) =>
        if m in db.profiles {
          job := Writers.Ingest(PublicationOf(db, m, doc, assets, false));
          ReplaceShown(owner, view, db, m, doc, Runs.IngestItems(doc, chunks), assets, false, now);
          IngestFrame(view, job.pub);
        }
      case WarmPublish(m, doc, items, assets, now) =>
        if m in db.profiles {
          job := Writers.Warm([m], [PublicationOf(db, m, doc, assets, true)]);
          ReplaceShown(owner, view, db, m, doc, items, assets, true, now);
          WarmFrame(view, m, job.pubs[0]);
        }
      case Cleanup(m, scan, order) =>
        if m in db.profiles {
          job := Writers.Cleanup(m, keys, order, db.ready);
          CleanupShown(owner, view, db, m, scan, keys, order);
        }
      case Certification(work, clean, now) =>
        job := CertificationJob(view, db, work, clean, now, names);
      case _ => QuietStep(db, step, view);
    }
    RowsShow(Runs.Next(db, step), RowsAfter(view, Writers.Program(job)));
  }

  /** A change of status, a new profile and the withdrawal of readiness write no shared row. */
  lemma QuietStep(db: Db, step: Runs.Step, view: set<Row>)
    requires (step.SetStatus? || step.Register? || step.Suspend?) && Shows(view, db)
    ensures Shows(view, Runs.Next(db, step))
  {
    forall r: Row ensures IsRow(db, r) <==> IsRow(Runs.Next(db, step), r) {
    }
  }

  lemma CertificationJob(view: set<Row>, db: Db, work: seq<(string, Plan)>, clean: Cleaner, now: int, names: seq<string>)
      returns (job: Writers.Job)
    requires Shows(view, db)
    ensures job.Reconcile? && job.profiles == names && RepairsFor(job.repairs, db.profiles.Keys)
    ensures Shows(RowsAfter(view, Writers.Program(job)), Runs.Certify(db, work, clean, now))
  {
    hide Runs.CertifyProfiles, Writers.Program, IsRow;
    var done := Runs.CertifyProfiles(db, work, clean, now);
    if done.Some? && Runs.WorkNames(work) == db.profiles.Keys {
      var repairs := CertificationShown(view, db, work, clean, now);
      job := Writers.Reconcile(names, repairs);
      ReconcileFrame(view, names, repairs);
      SameRows(done.value, done.value.(ready := true), RowsAfter(view, Writers.AllRepairs(repairs)));
    } else {
      job := Writers.Reconcile(names, []);
      ReconcileFrame(view, names, []);
    }
  }
}
