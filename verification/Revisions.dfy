/** The list revision as a faithful clock of a list's public rows, across every writer. */
module Revisions {
  import opened Text
  import opened Store
  import opened Agreement
  import opened Reconcile
  import opened Runs

  /** No revision falls, and a list whose public rows changed has a higher revision. */
  ghost predicate Tracks(after: Db, before: Db) {
    forall s: Scope ::
      && Revision(after, s) >= Revision(before, s)
      && (PublicRows(after, s) != PublicRows(before, s) ==> Revision(after, s) > Revision(before, s))
  }

  lemma TracksTransitive(a: Db, b: Db, c: Db)
    requires Tracks(b, a) && Tracks(c, b)
    ensures Tracks(c, a)
  {
    forall s: Scope
      ensures Revision(c, s) >= Revision(a, s)
      ensures PublicRows(c, s) != PublicRows(a, s) ==> Revision(c, s) > Revision(a, s)
    {
      assert Revision(b, s) >= Revision(a, s) && Revision(c, s) >= Revision(b, s);
    }
  }

  /** The public rows of one list, by catalog. */
  function ListRows(c: Catalog, s: Scope): map<DocKey, Public> {
    map k | k in c && InScope(k, s) :: c[k].public
  }

  /** Rewriting one profile is tracked when only the raised list's rows changed. */
  lemma RewriteTracks(after: Db, before: Db, model: string, p: Profile, scope: Scope, changed: bool)
    requires model in before.profiles && Rewrites(after, before, model, p, scope, changed)
    requires forall s: Scope :: s.model == model && !(changed && s == scope) ==>
               ListRows(p.catalog, s) == ListRows(before.profiles[model].catalog, s)
    ensures Tracks(after, before)
  {
    forall s: Scope
      ensures Revision(after, s) >= Revision(before, s)
      ensures PublicRows(after, s) != PublicRows(before, s) ==> Revision(after, s) > Revision(before, s)
    {
      if s.model in before.profiles {
        assert PublicRows(after, s) == ListRows(after.profiles[s.model].catalog, s);
        assert PublicRows(before, s) == ListRows(before.profiles[s.model].catalog, s);
      }
    }
  }

  lemma PublishRowLists(c: Catalog, k: DocKey, row: CatalogRow, s: Scope)
    requires !InScope(k, s) || !PublicChanges(c, k, row)
    ensures ListRows(PublishRow(c, k, row), s) == ListRows(c, s)
  {
  }

  lemma PublishTracks(db: Db, model: string, doc: Document, time: Option<int>, now: int)
    requires model in db.profiles
    ensures Tracks(PublishMetadata(db, model, doc, time, now), db)
  {
    var p := db.profiles[model];
    var row := NewRow(p.table, doc, time, now);
    PublishEffect(db, model, doc, time, now);
    forall s: Scope | s.model == model && !(PublicChanges(p.catalog, doc.key, row) && s == ScopeOf(model, doc.key))
      ensures ListRows(PublishRow(p.catalog, doc.key, row), s) == ListRows(p.catalog, s)
    {
      PublishRowLists(p.catalog, doc.key, row, s);
    }
    RewriteTracks(PublishMetadata(db, model, doc, time, now), db, model, p.(catalog := PublishRow(p.catalog, doc.key, row)),
                  ScopeOf(model, doc.key), PublicChanges(p.catalog, doc.key, row));
  }

  lemma ReplaceTracks(db: Db, model: string, doc: Document, items: seq<Item>,
                      assets: seq<AssetRecord>, preserve: bool, now: int)
    requires model in db.profiles
    ensures Tracks(ReplaceWritten(db, model, doc, items, assets, preserve, now), db)
  {
    var p := db.profiles[model];
    var time := if preserve then doc.time else Some(now);
    var row := NewRow(ReplacedTable(p.table, doc.key, items), doc, time, now);
    ReplaceEffect(db, model, doc, items, assets, preserve, now);
    forall s: Scope | s.model == model && !(PublicChanges(p.catalog, doc.key, row) && s == ScopeOf(model, doc.key))
      ensures ListRows(PublishRow(p.catalog, doc.key, row), s) == ListRows(p.catalog, s)
    {
      PublishRowLists(p.catalog, doc.key, row, s);
    }
    RewriteTracks(ReplaceWritten(db, model, doc, items, assets, preserve, now), db, model,
                  ReplacedProfile(p, doc, items, time, now), ScopeOf(model, doc.key), PublicChanges(p.catalog, doc.key, row));
  }

  lemma CleanupTracks(db: Db, model: string, scan: Scan, order: seq<DocKey>)
    requires model in db.profiles
    ensures Tracks(DeleteMissing(db, model, scan, order), db)
  {
    var p := db.profiles[model];
    var gone := MissingKeys(p.catalog, scan);
    var scope := Scope(scan.workspace, model, scan.chunking);
    DeleteMissingEffect(db, model, scan, order);
    forall s: Scope | s.model == model && !(gone != {} && s == scope)
      ensures ListRows(p.catalog - gone, s) == ListRows(p.catalog, s)
    {
    }
    RewriteTracks(DeleteMissing(db, model, scan, order), db, model, CleanedProfile(p, scan), scope, gone != {});
  }

  lemma TracksBetweenEqualLists(after: Db, after': Db, before: Db, before': Db)
    requires SameLists(after', after) && SameLists(before', before) && Tracks(after, before)
    ensures Tracks(after', before')
  {
    forall s: Scope
      ensures Revision(after', s) == Revision(after, s) && PublicRows(after', s) == PublicRows(after, s)
      ensures Revision(before', s) == Revision(before, s) && PublicRows(before', s) == PublicRows(before, s)
    {
    }
  }

  lemma ApplyGroupTracks(db: Db, v: Table, model: string, g: Group, clean: Cleaner, now: int)
    requires model in db.profiles && Member(v, g.first, g.key)
    ensures Tracks(ApplyGroup(db, v, model, g, clean, now), db)
  {
    var doc := WithTime(db, model, WithRoot(db, LegacyDocument(v, g, clean)));
    var d := InsertSource(db, doc, true);
    var e := PublishMetadata(d, model, doc, doc.time, now);
    PublishTracks(d, model, doc, doc.time, now);
    TracksBetweenEqualLists(e, ApplyGroup(db, v, model, g, clean, now), d, db);
  }

  lemma {:induction false} ApplyGroupsTrack(db: Db, v: Table, model: string, groups: seq<Group>, clean: Cleaner, now: int)
    requires model in db.profiles && Members(v, groups)
    ensures Tracks(ApplyGroups(db, v, model, groups, clean, now), db)
  {
    if groups != [] {
      var n := |groups| - 1;
      var d := ApplyGroups(db, v, model, groups[..n], clean, now);
      ApplyGroupsTrack(db, v, model, groups[..n], clean, now);
      ApplyGroupTracks(d, v, model, groups[n], clean, now);
      TracksTransitive(db, d, ApplyGroup(d, v, model, groups[n], clean, now));
    }
  }

  lemma DropRowTracks(db: Db, model: string, k: DocKey)
    requires model in db.profiles
    ensures Tracks(DropRow(db, model, k), db)
  {
    var p := db.profiles[model];
    DropRowEffect(db, model, k);
    forall s: Scope | s.model == model && s != ScopeOf(model, k)
      ensures ListRows(p.catalog - {k}, s) == ListRows(p.catalog, s)
    {
    }
    RewriteTracks(DropRow(db, model, k), db, model, p.(catalog := p.catalog - {k}), ScopeOf(model, k), true);
  }

  lemma {:induction false} DropRowsTrack(db: Db, model: string, ks: seq<DocKey>)
    requires model in db.profiles
    ensures Tracks(DropRows(db, model, ks), db)
  {
    if ks != [] {
      var n := |ks| - 1;
      DropRowsTrack(db, model, ks[..n]);
      DropRowTracks(DropRows(db, model, ks[..n]), model, ks[n]);
      TracksTransitive(db, DropRows(db, model, ks[..n]), DropRows(db, model, ks));
    }
  }

  lemma ReconcileTracks(db: Db, model: string, plan: Plan, clean: Cleaner, now: int)
    requires model in db.profiles && PlanFor(db, model, plan)
    ensures Tracks(ReconcileProfile(db, model, plan, clean, now), db)
  {
    var p := db.profiles[model];
    var v := View(db.sources, p.table);
    var d := WithProfile(db, model, p.(table := Rebuilt(db.sources, p.table)));
    var e := ReconcileGroups(db, model, plan.groups, clean, now);
    SameCatalogTracks(db, model, p.(table := Rebuilt(db.sources, p.table)));
    ApplyGroupsTrack(d, v, model, plan.groups, clean, now);
    TracksTransitive(db, d, e);
    DropRowsTrack(e, model, plan.stale);
    TracksTransitive(db, e, ReconcileProfile(db, model, plan, clean, now));
  }

  lemma SameCatalogTracks(db: Db, model: string, q: Profile)
    requires model in db.profiles && q.catalog == db.profiles[model].catalog
    ensures Tracks(WithProfile(db, model, q), db)
  {
    assert forall s: Scope :: Revision(WithProfile(db, model, q), s) == Revision(db, s);
  }

  lemma {:induction false} CertifyTracks(db: Db, work: seq<(string, Plan)>, clean: Cleaner, now: int)
    ensures var r := CertifyProfiles(db, work, clean, now);
            r.Some? ==> Tracks(r.value, db)
  {
    if work != [] && CertifyProfiles(db, work, clean, now).Some? {
      var n := |work| - 1;
      var d := CertifyProfiles(db, work[..n], clean, now).value;
      var (m, plan) := work[n];
      CertifyTracks(db, work[..n], clean, now);
      if d.profiles[m].provisioned {
        ReconcileTracks(d, m, plan, clean, now);
        TracksTransitive(db, d, ReconcileProfile(d, m, plan, clean, now));
      }
    }
  }

  lemma SelfTracks(db: Db)
    ensures Tracks(db, db) && Tracks(db.(ready := true), db)
  {
    assert forall s: Scope :: PublicRows(db.(ready := true), s) == PublicRows(db, s);
  }

  /** A new profile's lists are empty, as they were without it. */
  lemma NewProfileTracks(db: Db, model: string)
    ensures Tracks(Next(db, Register(model)), db)
  {
    var d := Next(db, Register(model));
    forall s: Scope ensures PublicRows(d, s) == PublicRows(db, s) {
    }
  }

  lemma SuspensionTracks(db: Db)
    ensures Tracks(db.(ready := false), db)
  {
    assert forall s: Scope :: PublicRows(db.(ready := false), s) == PublicRows(db, s);
  }

  lemma CertificationTracks(db: Db, work: seq<(string, Plan)>, clean: Cleaner, now: int)
    ensures Tracks(Certify(db, work, clean, now), db)
  {
    hide Tracks, CertifyProfiles;
    SelfTracks(db);
    CertifyTracks(db, work, clean, now);
    var r := CertifyProfiles(db, work, clean, now);
    if r.Some? {
      SelfTracks(r.value);
      TracksTransitive(db, r.value, r.value.(ready := true));
    }
  }

  lemma StepTracks(db: Db, step: Step)
    ensures Tracks(Next(db, step), db)
  {
    hide Tracks, ReplaceWritten, ReplaceOutcome, DeleteMissing, Certify, IngestItems;
    SelfTracks(db);
    match step
    case Ingest(m, doc, chunks, assets, now) =>
      if m in db.profiles {
        ReplaceTracks(db, m, doc, IngestItems(doc, chunks), assets, false, now);
      }
    case Cleanup(m, scan, order) =>
      if m in db.profiles {
        CleanupTracks(db, m, scan, order);
      }
    case WarmPublish(m, doc, items, assets, now) =>
      if m in db.profiles {
        ReplaceTracks(db, m, doc, items, assets, true, now);
      }
    case Certification(work, clean, now) => CertificationTracks(db, work, clean, now);
    case SetStatus(m, status) =>
      if m in db.profiles {
        SameCatalogTracks(db, m, db.profiles[m].(status := status));
      }
    case Register(m) => NewProfileTracks(db, m);
    case Suspend => SuspensionTracks(db);
  }

  /** Between any two states of a run, an equal revision means equal public rows. */
  lemma {:induction false} EqualRevisionEqualRows(db: Db, steps: seq<Step>, i: nat, j: nat, s: Scope)
    requires i <= j <= |steps|
    ensures Revision(Run(db, steps[..j]), s) >= Revision(Run(db, steps[..i]), s)
    ensures Revision(Run(db, steps[..j]), s) == Revision(Run(db, steps[..i]), s) ==>
              PublicRows(Run(db, steps[..j]), s) == PublicRows(Run(db, steps[..i]), s)
    decreases j - i
  {
    hide Next, PublicRows, Revision;
    if i < j {
      EqualRevisionEqualRows(db, steps, i, j - 1, s);
      assert steps[..j][..j - 1] == steps[..j - 1];
      StepTracks(Run(db, steps[..j - 1]), steps[j - 1]);
      assert Tracks(Run(db, steps[..j]), Run(db, steps[..j - 1]));
    }
  }
}
