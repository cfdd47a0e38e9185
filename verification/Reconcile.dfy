/** Certification of legacy tables: recovery of aliased rows, analysis of the chunk
    groups, and the rewriting of one profile's catalog from what the table holds. */
module Reconcile {
  import opened Text
  import opened ChunkIdentity
  import opened Store
  import opened Agreement

  /** The display clean-up, which is not part of this model: path, title, type. */
  type Cleaner = (string, Option<string>, string) -> Display

  // ---- recover_legacy_rows -------------------------------------------------------

  /** What recovery makes of one row: left out, or passed on with the metadata that the
      analysis sees and, possibly, a payload to write back. */
  datatype Recovery = Excluded | Scoped(metadata: Metadata, write: Option<Payload>)

  /** `payload.get("chunking_profile") or "default"`. */
  function EffectiveChunking(p: Payload): string {
    match p.chunking
    case Null => DEFAULT_PROFILE
    case Str(s) => if s == "" then DEFAULT_PROFILE else s
    case Other(text) => text
  }

  /** `row["source"] or payload["source_path"]`. */
  function RowPath(row: ChunkRow, p: Payload): Value {
    if row.source != "" then Str(row.source) else p.path
  }

  /** The shared source row under this id, if its path is the row's own. */
  function MatchingSource(sources: map<DocKey, Source>, row: ChunkRow, p: Payload, doc: string): Option<Source> {
    if p.workspace.Str? then
      var k := DocKey(p.workspace.s, EffectiveChunking(p), doc);
      if k in sources && Str(sources[k].path) == RowPath(row, p) then Some(sources[k]) else None
    else None
  }

  function Recover(sources: map<DocKey, Source>, row: ChunkRow): Recovery {
    match row.metadata
    case Malformed => Scoped(Malformed, None)
    case _ =>
      var p := row.metadata.p;
      if p.workspace.Null? then Excluded
      else if (p.doc.Null? || p.doc == Str("")) && IsText(p.alias) then
        match MatchingSource(sources, row, p, p.alias.s)
        case None => Scoped(Object(p), None)
        case Some(source) =>
          var fixed := p.(doc := p.alias, kind := if p.kind.Null? then Str(source.kind) else p.kind);
          Scoped(Object(fixed), Some(fixed))
      else if row.metadata.Encoded? && p.doc.Str? then
        if MatchingSource(sources, row, p, p.doc.s).Some? then Scoped(Object(p), Some(p))
        else Scoped(Malformed, None)
      else Scoped(Object(p), None)
  }

  /** The rows handed to the analysis. */
  function View(sources: map<DocKey, Source>, t: Table): Table {
    map id | id in t && Recover(sources, t[id]).Scoped? :: t[id].(metadata := Recover(sources, t[id]).metadata)
  }

  function RecoveredRow(sources: map<DocKey, Source>, row: ChunkRow): ChunkRow {
    match Recover(sources, row)
    case Scoped(_, Some(p)) => row.(metadata := Object(p))
    case _ => row
  }

  /** The table after the recovered payloads have been written back. */
  function Rebuilt(sources: map<DocKey, Source>, t: Table): Table {
    map id | id in t :: RecoveredRow(sources, t[id])
  }

  // ---- analyze_chunks ------------------------------------------------------------

  predicate WellFormed(m: Metadata) {
    && m.Object?
    && IsText(m.p.workspace) && IsText(m.p.doc)
    && !m.p.chunking.Other? && !m.p.title.Other? && !m.p.kind.Other? && m.p.assets.Some?
  }

  function FileKey(p: Payload): DocKey
    requires p.workspace.Str? && p.doc.Str?
  {
    DocKey(p.workspace.s, EffectiveChunking(p), p.doc.s)
  }

  predicate Member(v: Table, id: RowId, k: DocKey) {
    id in v && WellFormed(v[id].metadata) && FileKey(v[id].metadata.p) == k
  }

  function GroupKeys(v: Table): set<DocKey> {
    set id | id in v && WellFormed(v[id].metadata) :: FileKey(v[id].metadata.p)
  }

  function Identity(id: RowId, p: Payload): string {
    p.chunkId.Or(IdText(id))
  }

  function Kind(p: Payload): string {
    if p.kind.Str? then p.kind.s else "unknown"
  }

  predicate SameHash(v: Table, k: DocKey, hash: Value) {
    forall a :: a in v && Member(v, a, k) ==> v[a].metadata.p.hash == hash
  }

  predicate SameRoot(v: Table, k: DocKey, root: Value) {
    forall a :: a in v && Member(v, a, k) ==> v[a].metadata.p.root == root
  }

  /** A list or an object: it cannot be put into a set, and the analysis fails on it. */
  predicate Unhashable(v: Value) {
    v.Other? && v.text != "" && (v.text[0] == '[' || v.text[0] == '{')
  }

  /** The rows of a group name distinct chunks and agree on path, type and title. */
  predicate RowsAgree(v: Table, k: DocKey) {
    && (forall a, b :: a in v && b in v && a != b && Member(v, a, k) && Member(v, b, k) ==>
          Identity(a, v[a].metadata.p) != Identity(b, v[b].metadata.p))
    && (forall a, b :: a in v && b in v && Member(v, a, k) && Member(v, b, k) ==>
          var p, q := v[a].metadata.p, v[b].metadata.p;
          RowPath(v[a], p) == RowPath(v[b], q) && Kind(p) == Kind(q) && p.title == q.title)
  }

  /** Hashes and roots may differ, and are then forgotten; one that all rows share must be a
      string or null, or its publication fails. */
  predicate RowsSound(v: Table, k: DocKey) {
    forall a :: a in v && Member(v, a, k) ==>
      var p := v[a].metadata.p;
      && IsText(RowPath(v[a], p)) && !Unhashable(p.hash) && !Unhashable(p.root)
      && !(p.hash.Other? && SameHash(v, k, p.hash)) && !(p.root.Other? && SameRoot(v, k, p.root))
  }

  predicate GroupConsistent(v: Table, k: DocKey) {
    RowsAgree(v, k) && RowsSound(v, k)
  }

  /** No error was reported for any row or any group. */
  predicate Clean(v: Table) {
    && (forall id :: id in v ==> WellFormed(v[id].metadata))
    && (forall k :: k in GroupKeys(v) ==> GroupConsistent(v, k))
  }

  /** A group and the row its document is read from; in a consistent group any row will do. */
  datatype Group = Group(key: DocKey, first: RowId)

  /** The document a group stands for.  Its publication time is unknown. */
  function LegacyDocument(v: Table, g: Group, clean: Cleaner): Document
    requires Member(v, g.first, g.key)
  {
    var p := v[g.first].metadata.p;
    var path := SqlText(RowPath(v[g.first], p)).Or("");
    Document(g.key, clean(path, SqlText(p.title), Kind(p)), Kind(p),
             if SameHash(v, g.key, p.hash) && p.hash.Str? then Some(p.hash.s) else None, path,
             if SameRoot(v, g.key, p.root) && p.root.Str? then Some(p.root.s) else None, None)
  }

  function AssetIds(v: Table, k: DocKey): set<string> {
    set a, x | a in v && Member(v, a, k) && x in v[a].metadata.p.assets.value :: x
  }

  // ---- reconcile, one profile ------------------------------------------------------

  predicate AssetsPresent(db: Db, v: Table, k: DocKey) {
    forall x :: x in AssetIds(v, k) ==> x in db.assets && db.assets[x].key == k
  }

  /** No error is reported for a profile: its rows are clean, its workspaces are known and
      its assets belong to their documents. */
  predicate Certifiable(db: Db, model: string)
    requires model in db.profiles
  {
    var v := View(db.sources, db.profiles[model].table);
    && Clean(v)
    && (forall k :: k in GroupKeys(v) ==> k.workspace in db.workspaces && AssetsPresent(db, v, k))
  }

  function WithRoot(db: Db, doc: Document): Document {
    if doc.root.None? && doc.key in db.sources && db.sources[doc.key].path == doc.path
    then doc.(root := db.sources[doc.key].root) else doc
  }

  /** The time of an earlier publication is kept only for the very same content hash. */
  function WithTime(db: Db, model: string, doc: Document): Document
    requires model in db.profiles
  {
    var c := db.profiles[model].catalog;
    if doc.key in c && doc.hash.Some? && c[doc.key].hash == doc.hash
    then doc.(time := c[doc.key].public.time) else doc
  }

  function ApplyGroup(db: Db, v: Table, model: string, g: Group, clean: Cleaner, now: int): (r: Db)
    requires model in db.profiles && Member(v, g.first, g.key)
    ensures model in r.profiles
  {
    var doc := WithTime(db, model, WithRoot(db, LegacyDocument(v, g, clean)));
    var d := PublishMetadata(InsertSource(db, doc, true), model, doc, doc.time, now);
    var e := DeleteRefs(d, model, {g.key});
    e.(refs := e.refs + (set x | x in AssetIds(v, g.key) :: Ref(model, g.key, x)))
  }

  predicate Members(v: Table, groups: seq<Group>) {
    forall i :: 0 <= i < |groups| ==> Member(v, groups[i].first, groups[i].key)
  }

  function ApplyGroups(db: Db, v: Table, model: string, groups: seq<Group>, clean: Cleaner, now: int): (r: Db)
    requires model in db.profiles && Members(v, groups)
    ensures model in r.profiles
  {
    if groups == [] then db
    else ApplyGroup(ApplyGroups(db, v, model, groups[..|groups| - 1], clean, now), v, model, groups[|groups| - 1], clean, now)
  }

  /** Catalog rows that claim chunks where the table has none. */
  function Stale(catalog: Catalog, v: Table): set<DocKey> {
    set k | k in catalog && k !in GroupKeys(v) && catalog[k].public.count > 0
  }

  function DropRow(db: Db, model: string, k: DocKey): (r: Db)
    requires model in db.profiles
    ensures model in r.profiles
  {
    var p := db.profiles[model];
    Bump(DeleteRefs(WithProfile(db, model, p.(catalog := p.catalog - {k})), model, {k}), ScopeOf(model, k))
  }

  function DropRows(db: Db, model: string, ks: seq<DocKey>): (r: Db)
    requires model in db.profiles
    ensures model in r.profiles
  {
    if ks == [] then db else DropRow(DropRows(db, model, ks[..|ks| - 1]), model, ks[|ks| - 1])
  }

  function GroupKeySet(groups: seq<Group>): set<DocKey> {
    if groups == [] then {} else GroupKeySet(groups[..|groups| - 1]) + {groups[|groups| - 1].key}
  }

  /** The order in which one profile's groups and stale rows are visited. */
  datatype Plan = Plan(groups: seq<Group>, stale: seq<DocKey>)

  predicate PlanFor(db: Db, model: string, plan: Plan)
    requires model in db.profiles
  {
    var v := View(db.sources, db.profiles[model].table);
    && Members(v, plan.groups) && GroupKeySet(plan.groups) == GroupKeys(v)
    && (forall i, j :: 0 <= i < j < |plan.groups| ==> plan.groups[i].key != plan.groups[j].key)
    && Enumerates(plan.stale, Stale(db.profiles[model].catalog, v))
  }

  function ReconcileGroups(db: Db, model: string, groups: seq<Group>, clean: Cleaner, now: int): (r: Db)
    requires model in db.profiles && Members(View(db.sources, db.profiles[model].table), groups)
    ensures model in r.profiles
  {
    var p := db.profiles[model];
    var d := WithProfile(db, model, p.(table := Rebuilt(db.sources, p.table)));
    ApplyGroups(d, View(db.sources, p.table), model, groups, clean, now)
  }

  function ReconcileProfile(db: Db, model: string, plan: Plan, clean: Cleaner, now: int): (r: Db)
    requires model in db.profiles && PlanFor(db, model, plan)
    ensures model in r.profiles
  {
    DropRows(ReconcileGroups(db, model, plan.groups, clean, now), model, plan.stale)
  }

  // ---- What certification establishes ------------------------------------------------

  /** No row the analysis accepted stores an empty chunking profile: SQL would file it
      under "" while the analysis files it under "default". */
  ghost predicate NoEmptyChunking(v: Table) {
    forall id :: id in v && v[id].metadata.Object? ==> v[id].metadata.p.chunking != Str("")
  }

  lemma RebuiltRow(sources: map<DocKey, Source>, t: Table, id: RowId)
    requires id in t && Clean(View(sources, t))
    ensures id !in View(sources, t) ==> Unscoped(Rebuilt(sources, t)[id].metadata)
    ensures id in View(sources, t) ==> Rebuilt(sources, t)[id].metadata == View(sources, t)[id].metadata
  {
    var row := t[id];
    if Recover(sources, row).Scoped? {
      assert id in View(sources, t);
      assert WellFormed(View(sources, t)[id].metadata);
    }
  }

  lemma SqlGroupOfAnalysed(p: Payload)
    requires WellFormed(Object(p))
    ensures p.chunking != Str("") ==> SqlGroup(Object(p)) == Some(FileKey(p))
    ensures p.chunking == Str("") ==> SqlGroup(Object(p)) == Some(DocKey(p.workspace.s, "", p.doc.s))
  {
  }

  /** How far the rewriting of a profile's catalog has come. */
  ghost predicate Counted(after: Profile, before: Profile, done: set<DocKey>) {
    && after == before.(catalog := after.catalog)
    && after.catalog.Keys == before.catalog.Keys + done
    && (forall k :: k in done ==> after.catalog[k].public.count == GroupCount(after.table, k))
    && (forall k :: k in before.catalog && k !in done ==> after.catalog[k] == before.catalog[k])
  }

  ghost predicate OthersKept(after: Db, before: Db, model: string) {
    && model in after.profiles && after.profiles.Keys == before.profiles.Keys
    && (forall m :: m in before.profiles && m != model ==> after.profiles[m] == before.profiles[m])
    && after.workspaces == before.workspaces && after.ready == before.ready
  }

  lemma PublishCounts(p: Profile, doc: Document, time: Option<int>, now: int)
    ensures Counted(p.(catalog := PublishRow(p.catalog, doc.key, NewRow(p.table, doc, time, now))), p, {doc.key})
  {
  }

  lemma ApplyGroupCounts(db: Db, v: Table, model: string, g: Group, clean: Cleaner, now: int)
    requires model in db.profiles && Member(v, g.first, g.key)
    ensures var r := ApplyGroup(db, v, model, g, clean, now);
            OthersKept(r, db, model) && Counted(r.profiles[model], db.profiles[model], {g.key})
  {
    var doc := WithTime(db, model, WithRoot(db, LegacyDocument(v, g, clean)));
    var d := InsertSource(db, doc, true);
    PublishEffect(d, model, doc, doc.time, now);
    PublishCounts(db.profiles[model], doc, doc.time, now);
    assert SameLists(ApplyGroup(db, v, model, g, clean, now), PublishMetadata(d, model, doc, doc.time, now));
  }

  lemma ApplyNextGroup(start: Db, db: Db, v: Table, model: string, g: Group, clean: Cleaner, now: int, done: set<DocKey>)
    requires model in start.profiles && model in db.profiles && Member(v, g.first, g.key)
    requires OthersKept(db, start, model) && Counted(db.profiles[model], start.profiles[model], done)
    ensures var r := ApplyGroup(db, v, model, g, clean, now);
            OthersKept(r, start, model) && Counted(r.profiles[model], start.profiles[model], done + {g.key})
  {
    ApplyGroupCounts(db, v, model, g, clean, now);
  }

  lemma {:induction false} ApplyGroupsCounts(db: Db, v: Table, model: string, groups: seq<Group>, clean: Cleaner, now: int)
    requires model in db.profiles && Members(v, groups)
    ensures var r := ApplyGroups(db, v, model, groups, clean, now);
            OthersKept(r, db, model) && Counted(r.profiles[model], db.profiles[model], GroupKeySet(groups))
  {
    if groups != [] {
      var n := |groups| - 1;
      ApplyGroupsCounts(db, v, model, groups[..n], clean, now);
      ApplyNextGroup(db, ApplyGroups(db, v, model, groups[..n], clean, now), v, model, groups[n], clean, now, GroupKeySet(groups[..n]));
    }
  }

  lemma DropRowEffect(db: Db, model: string, k: DocKey)
    requires model in db.profiles
    ensures Rewrites(DropRow(db, model, k), db, model,
                     db.profiles[model].(catalog := db.profiles[model].catalog - {k}), ScopeOf(model, k), true)
  {
    var p := db.profiles[model];
    BumpEffect(DeleteRefs(WithProfile(db, model, p.(catalog := p.catalog - {k})), model, {k}), ScopeOf(model, k));
  }

  lemma {:induction false} DropRowsEffect(db: Db, model: string, ks: seq<DocKey>)
    requires model in db.profiles
    ensures var r := DropRows(db, model, ks);
            OthersKept(r, db, model)
            && r.profiles[model] == db.profiles[model].(catalog := db.profiles[model].catalog - (set k | k in ks))
  {
    var c := db.profiles[model].catalog;
    if ks == [] {
      assert c - (set k | k in ks) == c;
    } else {
      var n := |ks| - 1;
      DropRowsEffect(db, model, ks[..n]);
      DropRowEffect(DropRows(db, model, ks[..n]), model, ks[n]);
      assert (set k | k in ks) == (set k | k in ks[..n]) + {ks[n]};
      assert c - (set k | k in ks) == (c - (set k | k in ks[..n])) - {ks[n]};
    }
  }

  /** The profile that certification leaves. */
  ghost predicate CertifiedProfile(after: Profile, before: Profile, sources: map<DocKey, Source>) {
    var v := View(sources, before.table);
    && after == before.(table := Rebuilt(sources, before.table), catalog := after.catalog)
    && (forall k :: k in GroupKeys(v) ==> k in after.catalog && after.catalog[k].public.count == GroupCount(after.table, k))
    && (forall k :: k in after.catalog && k !in GroupKeys(v) ==> after.catalog[k].public.count == 0)
  }

  lemma GroupsApplied(db: Db, v: Table, model: string, q: Profile, groups: seq<Group>, clean: Cleaner, now: int)
    requires model in db.profiles && Members(v, groups)
    ensures var e := ApplyGroups(WithProfile(db, model, q), v, model, groups, clean, now);
            OthersKept(e, db, model) && Counted(e.profiles[model], q, GroupKeySet(groups))
  {
    ApplyGroupsCounts(WithProfile(db, model, q), v, model, groups, clean, now);
  }

  lemma GroupsRewritten(db: Db, model: string, groups: seq<Group>, clean: Cleaner, now: int)
    requires model in db.profiles && Members(View(db.sources, db.profiles[model].table), groups)
    ensures var p := db.profiles[model];
            var e := ReconcileGroups(db, model, groups, clean, now);
            OthersKept(e, db, model)
            && Counted(e.profiles[model], p.(table := Rebuilt(db.sources, p.table)), GroupKeySet(groups))
  {
    var p := db.profiles[model];
    GroupsApplied(db, View(db.sources, p.table), model, p.(table := Rebuilt(db.sources, p.table)), groups, clean, now);
  }

  lemma ReconciledProfile(db: Db, model: string, plan: Plan, clean: Cleaner, now: int)
    requires model in db.profiles && PlanFor(db, model, plan)
    ensures var r := ReconcileProfile(db, model, plan, clean, now);
            OthersKept(r, db, model) && CertifiedProfile(r.profiles[model], db.profiles[model], db.sources)
  {
    GroupsRewritten(db, model, plan.groups, clean, now);
    RewrittenProfile(db, ReconcileGroups(db, model, plan.groups, clean, now), model, db.profiles[model], plan);
  }

  lemma RewrittenProfile(db: Db, e: Db, model: string, p: Profile, plan: Plan)
    requires model in db.profiles && db.profiles[model] == p && PlanFor(db, model, plan)
    requires OthersKept(e, db, model)
    requires Counted(e.profiles[model], p.(table := Rebuilt(db.sources, p.table)), GroupKeySet(plan.groups))
    ensures var r := DropRows(e, model, plan.stale);
            OthersKept(r, db, model) && CertifiedProfile(r.profiles[model], p, db.sources)
  {
    DropRowsEffect(e, model, plan.stale);
  }

  /** Certifying a profile brings its catalog into agreement with its table, from whatever
      state the two were in, exactly when no accepted row stores an empty chunking profile. */
  lemma CertifiedAgrees(db: Db, model: string, plan: Plan, clean: Cleaner, now: int)
    requires model in db.profiles && PlanFor(db, model, plan)
    requires Certifiable(db, model)
    ensures Agrees(ReconcileProfile(db, model, plan, clean, now).profiles[model])
       <==> NoEmptyChunking(View(db.sources, db.profiles[model].table))
  {
    ReconciledProfile(db, model, plan, clean, now);
    CertifiedProfileAgrees(ReconcileProfile(db, model, plan, clean, now).profiles[model], db.profiles[model], db.sources);
  }

  lemma CertifiedProfileAgrees(after: Profile, before: Profile, sources: map<DocKey, Source>)
    requires CertifiedProfile(after, before, sources) && Clean(View(sources, before.table))
    ensures Agrees(after) <==> NoEmptyChunking(View(sources, before.table))
  {
    var v := View(sources, before.table);
    if NoEmptyChunking(v) {
      forall id | id in after.table
        ensures Filed(after.table[id].metadata, after.catalog)
        ensures SqlGroup(after.table[id].metadata).Some? ==> SqlGroup(after.table[id].metadata).value in GroupKeys(v)
      {
        RebuiltRow(sources, before.table, id);
        if id in v {
          SqlGroupOfAnalysed(v[id].metadata.p);
        }
      }
      forall k | k in after.catalog && k !in GroupKeys(v) ensures after.catalog[k].public.count == GroupCount(after.table, k) {
        assert GroupIds(after.table, k) == {};
      }
    } else {
      EmptyChunkingMisfiled(after, before, sources);
    }
  }

  /** The analysis files nothing under an empty chunking profile. */
  lemma NoEmptyKey(v: Table, k: DocKey)
    requires k.chunking == ""
    ensures k !in GroupKeys(v)
  {
  }

  lemma EmptyChunkingMisfiled(after: Profile, before: Profile, sources: map<DocKey, Source>)
    requires CertifiedProfile(after, before, sources) && Clean(View(sources, before.table))
    requires !NoEmptyChunking(View(sources, before.table))
    ensures !Agrees(after)
  {
    hide Recover, GroupConsistent;
    var v := View(sources, before.table);
    var id :| id in v && v[id].metadata.Object? && v[id].metadata.p.chunking == Str("");
    var p := v[id].metadata.p;
    RebuiltRow(sources, before.table, id);
    SqlGroupOfAnalysed(p);
    var k := DocKey(p.workspace.s, "", p.doc.s);
    NoEmptyKey(v, k);
    if k in after.catalog {
      assert id in GroupIds(after.table, k);
      assert after.catalog[k].public.count != GroupCount(after.table, k);
    } else {
      assert !Filed(after.table[id].metadata, after.catalog);
    }
  }
}
