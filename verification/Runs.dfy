/** Every writer of the catalog, interleaved in any order: ingestion, directory cleanup,
    warming, status changes and certification.  Each commit is one step. */
module Runs {
  import opened Text
  import opened ChunkIdentity
  import opened Store
  import opened Agreement
  import opened Reconcile

  // ---- Whose chunk is it? --------------------------------------------------------

  /** Which document a chunk identity of a workspace belongs to. */
  type Owner = (string, string) -> DocKey

  predicate PlainNames(k: DocKey) {
    ColonFree(k.workspace) && ColonFree(k.chunking) && ColonFree(k.doc) && k.chunking != "" && k.doc != ""
  }

  /** The identities that ingestion generates belong to the documents it generates them for. */
  ghost predicate GoodOwner(owner: Owner) {
    forall k: DocKey, i: nat :: PlainNames(k) ==> owner(k.workspace, ChunkId(k.doc, k.chunking, i)) == k
  }

  /** Such an assignment exists, because generated identities are unambiguous. */
  lemma GoodOwnerExists() returns (owner: Owner)
    ensures GoodOwner(owner)
  {
    owner := (w, c) => GeneratedOwner(w, c);
    forall k: DocKey, i: nat | PlainNames(k)
      ensures owner(k.workspace, ChunkId(k.doc, k.chunking, i)) == k
    {
      assert Generates(k, i, k.workspace, ChunkId(k.doc, k.chunking, i));
      var o, j := GeneratedPair(k.workspace, ChunkId(k.doc, k.chunking, i));
      ChunkIdInjective(k.doc, k.chunking, i, o.doc, o.chunking, j);
    }
  }

  ghost predicate Generates(k: DocKey, i: nat, w: string, c: string) {
    PlainNames(k) && k.workspace == w && ChunkId(k.doc, k.chunking, i) == c
  }

  ghost function GeneratedOwner(w: string, c: string): DocKey {
    if exists k, i :: Generates(k, i, w, c) then
      var k, i :| Generates(k, i, w, c);
      k
    else DocKey(w, c, c)
  }

  lemma GeneratedPair(w: string, c: string) returns (k: DocKey, i: nat)
    requires exists k, i :: Generates(k, i, w, c)
    ensures Generates(k, i, w, c) && GeneratedOwner(w, c) == k
  {
    k := GeneratedOwner(w, c);
    i :| Generates(k, i, w, c);
  }

  // ---- What is assumed of, and kept about, every stored row -----------------------

  /** A row written by the current code: its key hashes its own workspace and chunk id. */
  predicate Generated(name: string, m: Metadata) {
    && m.Object? && m.p.workspace.Str? && ColonFree(m.p.workspace.s)
    && IsText(m.p.doc) && !m.p.chunking.Other? && m.p.chunkId.Some?
    && name == RowName(m.p.workspace.s, m.p.chunkId.value)
  }

  /** The document a row claims, directly or through its legacy alias, with the identity
      it gives its chunk. */
  function Claim(id: RowId, m: Metadata): Option<(DocKey, string)> {
    if m.Malformed? || !m.p.workspace.Str? then None
    else
      var doc := if IsText(m.p.doc) then m.p.doc else m.p.alias;
      if IsText(doc) then
        Some((DocKey(m.p.workspace.s, EffectiveChunking(m.p), doc.s), Identity(id, m.p)))
      else None
  }

  ghost predicate RowSound(owner: Owner, id: RowId, m: Metadata) {
    && (id.Uuid5? ==> Generated(id.name, m))
    && (Claim(id, m).Some? ==>
          owner(Claim(id, m).value.0.workspace, Claim(id, m).value.1) == Claim(id, m).value.0)
    && (!m.Malformed? ==> m.p.chunking != Str(""))
  }

  ghost predicate TableSound(owner: Owner, t: Table) {
    forall id :: id in t ==> RowSound(owner, id, t[id].metadata)
  }

  ghost predicate Sound(owner: Owner, db: Db) {
    forall m :: m in db.profiles ==> TableSound(owner, db.profiles[m].table)
  }

  /** Chunks a writer may publish for a document: its own, under identities it owns. */
  ghost predicate ItemsSound(owner: Owner, items: seq<Item>, k: DocKey) {
    forall i :: 0 <= i < |items| ==>
      && Generated(ItemId(items[i]).name, ItemRow(items[i]).metadata)
      && Claim(ItemId(items[i]), ItemRow(items[i]).metadata) == Some((k, items[i].chunkId))
      && owner(k.workspace, items[i].chunkId) == k
      && items[i].payload.chunking != Str("")
  }

  /** No other document's row can be hit: equal keys mean equal workspace and chunk
      identity, hence the same owner. */
  lemma SoundItemsOverwriteNothing(owner: Owner, t: Table, items: seq<Item>, k: DocKey)
    requires TableSound(owner, t) && ItemsSound(owner, items, k)
    ensures !Overwrites(t, items, k)
  {
    forall i | 0 <= i < |items| && ItemId(items[i]) in t
      ensures SqlGroup(t[ItemId(items[i])].metadata) == Some(k)
    {
      var m := t[ItemId(items[i])].metadata;
      var n := ItemRow(items[i]).metadata;
      assert RowSound(owner, ItemId(items[i]), m);
      FirstFieldUnique(m.p.workspace.s, m.p.chunkId.value, n.p.workspace.s, n.p.chunkId.value, ':');
      assert Claim(ItemId(items[i]), m).value.0 == k;
    }
  }

  /** Recovery changes no claim: it only writes down the alias a row already had. */
  lemma RecoveredRowSound(owner: Owner, sources: map<DocKey, Source>, id: RowId, row: ChunkRow)
    requires RowSound(owner, id, row.metadata)
    ensures RowSound(owner, id, RecoveredRow(sources, row).metadata)
    ensures Recover(sources, row).Scoped? && Recover(sources, row).metadata.Object? ==>
              Recover(sources, row).metadata.p.chunking != Str("")
  {
  }

  // ---- Rules that every stored row keeps ---------------------------------------------

  /** Something that may be said of a stored row: its key and its metadata. */
  type RowRule = (RowId, Metadata) -> bool

  ghost predicate EveryRow(rule: RowRule, db: Db) {
    forall m :: m in db.profiles ==> RowsKeep(rule, db.profiles[m].table)
  }

  ghost predicate RowsKeep(rule: RowRule, t: Table) {
    forall id :: id in t ==> rule(id, t[id].metadata)
  }

  ghost predicate ItemsKeep(rule: RowRule, items: seq<Item>) {
    forall i :: 0 <= i < |items| ==> rule(ItemId(items[i]), ItemRow(items[i]).metadata)
  }

  /** Writing a recovered payload back does not break the rule. */
  ghost predicate Recoverable(rule: RowRule) {
    forall sources: map<DocKey, Source>, id: RowId, row: ChunkRow :: rule(id, row.metadata) ==> rule(id, RecoveredRow(sources, row).metadata)
  }

  lemma ReplacedRowsKeep(rule: RowRule, t: Table, items: seq<Item>, k: DocKey)
    requires RowsKeep(rule, t) && ItemsKeep(rule, items)
    ensures RowsKeep(rule, ReplacedTable(t, k, items))
  {
    UpsertShape(DeleteGroups(t, {k}), items);
    var u := ReplacedTable(t, k, items);
    forall id | id in u ensures rule(id, u[id].metadata) {
      if id in ItemIds(items) {
        var i :| 0 <= i < |items| && ItemId(items[i]) == id && u[id] == ItemRow(items[i]);
      } else {
        assert id in t && u[id] == t[id];
      }
    }
  }

  // ---- The writers ------------------------------------------------------------------

  /** A chunk as ingestion produces it: its index among the document's chunks, its text
      and its embedding. */
  datatype Chunk = Chunk(index: nat, text: string, vector: Vector, title: Value, assets: set<string>)

  function IngestItem(doc: Document, c: Chunk): Item {
    var id := ChunkId(doc.key.doc, doc.key.chunking, c.index);
    Item(id,
         Payload(Str(doc.key.workspace), Str(doc.key.doc), Null, Str(doc.key.chunking), Some(id), c.title,
                 Str(doc.kind), Str(doc.path), if doc.hash.Some? then Str(doc.hash.value) else Null,
                 if doc.root.Some? then Str(doc.root.value) else Null, Some(c.assets)),
         c.text, c.vector)
  }

  function IngestItems(doc: Document, chunks: seq<Chunk>): (items: seq<Item>)
    ensures |items| == |chunks|
    ensures forall i :: 0 <= i < |chunks| ==> items[i] == IngestItem(doc, chunks[i])
  {
    if chunks == [] then [] else [IngestItem(doc, chunks[0])] + IngestItems(doc, chunks[1..])
  }

  lemma IngestItemsSound(owner: Owner, doc: Document, chunks: seq<Chunk>)
    requires GoodOwner(owner) && PlainNames(doc.key)
    ensures ItemsSound(owner, IngestItems(doc, chunks), doc.key)
  {
  }

  /** One profile of the registry: passed over, rewritten, or the end of the transaction. */
  function CertifyProfile(db: Db, model: string, plan: Plan, clean: Cleaner, now: int): Option<Db> {
    if model !in db.profiles then None
    else if !db.profiles[model].provisioned then (if db.profiles[model].status == Ready then None else Some(db))
    else if PlanFor(db, model, plan) && Certifiable(db, model) then Some(ReconcileProfile(db, model, plan, clean, now))
    else None
  }

  /** A profile with storage passes if it can be certified, one without if it is not ready; only the
      former is rewritten. */
  lemma WhenAProfilePasses(db: Db, model: string, plan: Plan, clean: Cleaner, now: int)
    ensures var r := CertifyProfile(db, model, plan, clean, now);
            && (r.Some? ==> model in db.profiles)
            && (model in db.profiles && !db.profiles[model].provisioned ==>
                  r == if db.profiles[model].status in {Draft, Warming, Archived} then Some(db) else None)
            && (model in db.profiles && db.profiles[model].provisioned ==>
                  (r.Some? <==> PlanFor(db, model, plan) && Certifiable(db, model))
                  && (r.Some? ==> r.value == ReconcileProfile(db, model, plan, clean, now)))
  {
    hide PlanFor, Certifiable, ReconcileProfile;
  }

  /** Certification of the whole registry: profile after profile, then the ready flag.
      Any error rolls the transaction back. */
  function CertifyProfiles(db: Db, work: seq<(string, Plan)>, clean: Cleaner, now: int): Option<Db> {
    if work == [] then Some(db)
    else
      match CertifyProfiles(db, work[..|work| - 1], clean, now)
      case None => None
      case Some(d) => CertifyProfile(d, work[|work| - 1].0, work[|work| - 1].1, clean, now)
  }

  function WorkNames(work: seq<(string, Plan)>): set<string> {
    set w | w in work :: w.0
  }

  function Certify(db: Db, work: seq<(string, Plan)>, clean: Cleaner, now: int): Db {
    match CertifyProfiles(db, work, clean, now)
    case None => db
    case Some(d) => if WorkNames(work) == db.profiles.Keys then d.(ready := true) else db
  }

  /** Ingestion, cleanup, one document of a warm, a change of status, the registration of a new
      profile with empty storage, withdrawal of readiness, and certification. */
  datatype Step =
    | Ingest(model: string, doc: Document, chunks: seq<Chunk>, assets: seq<AssetRecord>, now: int)
    | Cleanup(model: string, scan: Scan, order: seq<DocKey>)
    | WarmPublish(model: string, doc: Document, items: seq<Item>, assets: seq<AssetRecord>, now: int)
    | SetStatus(model: string, status: Status)
    | Register(model: string)
    | Suspend
    | Certification(work: seq<(string, Plan)>, clean: Cleaner, now: int)

  function Next(db: Db, step: Step): Db {
    match step
    case Ingest(m, doc, chunks, assets, now) =>
      if m in db.profiles then Replace(db, m, doc, IngestItems(doc, chunks), assets, false, now) else db
    case Cleanup(m, scan, order) => if m in db.profiles then DeleteMissing(db, m, scan, order) else db
    case WarmPublish(m, doc, items, assets, now) =>
      if m in db.profiles then Replace(db, m, doc, items, assets, true, now) else db
    case SetStatus(m, status) =>
      if m in db.profiles then WithProfile(db, m, db.profiles[m].(status := status)) else db
    case Register(m) => if m in db.profiles then db else WithProfile(db, m, Profile(Draft, true, map[], map[]))
    case Suspend => db.(ready := false)
    case Certification(work, clean, now) => Certify(db, work, clean, now)
  }

  function Run(db: Db, steps: seq<Step>): Db {
    if steps == [] then db else Next(Run(db, steps[..|steps| - 1]), steps[|steps| - 1])
  }

  /** A registration adds a draft without rows, if the name is new; nothing else is touched. */
  lemma WhatRegistrationDoes(db: Db, model: string)
    ensures var d := Next(db, Register(model));
            && d.profiles.Keys == db.profiles.Keys + {model} && (forall m :: m in db.profiles ==> d.profiles[m] == db.profiles[m])
            && (model !in db.profiles ==>
                  var p := d.profiles[model]; p.status == Draft && p.provisioned && |p.table| == 0 && |p.catalog| == 0)
            && d == db.(profiles := d.profiles)
  {
  }

  // ---- What every step keeps of the rows ------------------------------------------------

  /** The chunks a step publishes, for the document it publishes them for. */
  function Publishing(step: Step): Option<(DocKey, seq<Item>)> {
    match step
    case Ingest(_, doc, chunks, _, _) => Some((doc.key, IngestItems(doc, chunks)))
    case WarmPublish(_, doc, items, _, _) => Some((doc.key, items))
    case _ => None
  }

  lemma PublicationKeepsRule(rule: RowRule, db: Db, model: string, doc: Document, items: seq<Item>,
                             assets: seq<AssetRecord>, preserve: bool, now: int)
    requires model in db.profiles && EveryRow(rule, db) && ItemsKeep(rule, items)
    ensures EveryRow(rule, Replace(db, model, doc, items, assets, preserve, now))
  {
    ReplaceEffect(db, model, doc, items, assets, preserve, now);
    ReplacedRowsKeep(rule, db.profiles[model].table, items, doc.key);
  }

  lemma {:induction false} CertificationKeepsRule(rule: RowRule, db: Db, work: seq<(string, Plan)>, clean: Cleaner, now: int)
    requires EveryRow(rule, db) && Recoverable(rule)
    ensures var r := CertifyProfiles(db, work, clean, now);
            r.Some? ==> EveryRow(rule, r.value)
  {
    if work != [] && CertifyProfiles(db, work, clean, now).Some? {
      var n := |work| - 1;
      CertificationKeepsRule(rule, db, work[..n], clean, now);
      var d := CertifyProfiles(db, work[..n], clean, now).value;
      var (m, plan) := work[n];
      if d.profiles[m].provisioned {
        ReconcileKeepsRule(rule, d, m, plan, clean, now);
      }
    }
  }

  lemma ReconcileKeepsRule(rule: RowRule, db: Db, m: string, plan: Plan, clean: Cleaner, now: int)
    requires EveryRow(rule, db) && Recoverable(rule) && m in db.profiles && PlanFor(db, m, plan)
    ensures EveryRow(rule, ReconcileProfile(db, m, plan, clean, now))
  {
    hide ReconcileProfile, View, RecoveredRow, PlanFor, GroupKeys;
    ReconciledProfile(db, m, plan, clean, now);
    var t := db.profiles[m].table;
    forall id | id in t ensures rule(id, Rebuilt(db.sources, t)[id].metadata) {
      assert rule(id, RecoveredRow(db.sources, t[id]).metadata);
    }
  }

  /** A rule that recovery respects is kept by every step whose own chunks obey it. */
  lemma StepKeepsRule(rule: RowRule, db: Db, step: Step)
    requires EveryRow(rule, db) && Recoverable(rule)
    requires Publishing(step).Some? ==> ItemsKeep(rule, Publishing(step).value.1)
    ensures EveryRow(rule, Next(db, step))
  {
    hide Replace, DeleteMissing, CertifyProfiles, IngestItems, Recoverable;
    match step
    case Ingest(m, doc, chunks, assets, now) =>
      if m in db.profiles {
        PublicationKeepsRule(rule, db, m, doc, IngestItems(doc, chunks), assets, false, now);
      }
    case Cleanup(m, scan, order) =>
      if m in db.profiles {
        DeleteMissingEffect(db, m, scan, order);
      }
    case WarmPublish(m, doc, items, assets, now) =>
      if m in db.profiles {
        PublicationKeepsRule(rule, db, m, doc, items, assets, true, now);
      }
    case SetStatus(m, status) =>
    case Register(m) =>
    case Suspend =>
    case Certification(work, clean, now) =>
      CertificationKeepsRule(rule, db, work, clean, now);
  }

  lemma {:induction false} RunKeepsRule(rule: RowRule, db: Db, steps: seq<Step>, n: nat)
    requires n <= |steps| && EveryRow(rule, db) && Recoverable(rule)
    requires forall i :: 0 <= i < |steps| && Publishing(steps[i]).Some? ==> ItemsKeep(rule, Publishing(steps[i]).value.1)
    ensures EveryRow(rule, Run(db, steps[..n]))
  {
    hide Next, EveryRow, Publishing, Recoverable, ItemsKeep;
    if n > 0 {
      RunKeepsRule(rule, db, steps, n - 1);
      assert steps[..n][..n - 1] == steps[..n - 1];
      StepKeepsRule(rule, Run(db, steps[..n - 1]), steps[n - 1]);
    }
  }

  // ---- Stored chunking profiles are absent or nonempty ---------------------------------------

  ghost predicate Chunked(id: RowId, m: Metadata) {
    !m.Malformed? ==> m.p.chunking != Str("")
  }

  ghost predicate AllChunked(db: Db) {
    EveryRow(Chunked, db)
  }

  lemma ChunkedRecovers()
    ensures Recoverable(Chunked)
  {
  }

  lemma ChunkedView(sources: map<DocKey, Source>, t: Table)
    requires RowsKeep(Chunked, t)
    ensures NoEmptyChunking(View(sources, t))
  {
    forall id | id in View(sources, t) && View(sources, t)[id].metadata.Object?
      ensures View(sources, t)[id].metadata.p.chunking != Str("")
    {
      assert Chunked(id, t[id].metadata);
    }
  }

  predicate DistinctNames(work: seq<(string, Plan)>) {
    forall i, j :: 0 <= i < j < |work| ==> work[i].0 != work[j].0
  }

  /** A publication publishes a document's own chunks; certification visits a profile once. */
  ghost predicate Allowed(step: Step) {
    && (Publishing(step).Some? ==> ItemsBelong(Publishing(step).value.1, Publishing(step).value.0))
    && (step.Certification? ==> DistinctNames(step.work))
  }

  lemma IngestIsAllowed(m: string, doc: Document, chunks: seq<Chunk>, assets: seq<AssetRecord>, now: int)
    ensures Allowed(Ingest(m, doc, chunks, assets, now))
  {
  }

  lemma NamedIsChunked(k: DocKey, items: seq<Item>)
    requires ItemsBelong(items, k) && k.chunking != ""
    ensures ItemsKeep(Chunked, items)
  {
    forall i | 0 <= i < |items| ensures Chunked(ItemId(items[i]), ItemRow(items[i]).metadata) {
      assert SqlGroup(ItemRow(items[i]).metadata) == Some(k);
    }
  }

  // ---- Ready means in agreement, after every run ----------------------------------------

  ghost predicate ReadyAgrees(db: Db) {
    db.ready ==> CatalogAgrees(db)
  }

  /** A written publication whose chunks land on another document's rows. */
  ghost predicate Clashes(db: Db, step: Step) {
    match step
    case Ingest(m, doc, chunks, _, _) =>
      && m in db.profiles && db.profiles[m].provisioned && ReplaceOutcome(db, m, doc, false) == Written
      && Overwrites(db.profiles[m].table, IngestItems(doc, chunks), doc.key)
    case WarmPublish(m, doc, items, _, _) =>
      m in db.profiles && db.profiles[m].provisioned && Overwrites(db.profiles[m].table, items, doc.key)
    case _ => false
  }

  lemma PublicationAgrees(db: Db, model: string, doc: Document, items: seq<Item>, assets: seq<AssetRecord>, preserve: bool, now: int)
    requires model in db.profiles && CatalogAgrees(db) && ItemsBelong(items, doc.key)
    requires ReplaceOutcome(db, model, doc, preserve) == Written
    ensures CatalogAgrees(Replace(db, model, doc, items, assets, preserve, now))
       <==> !(db.profiles[model].provisioned && Overwrites(db.profiles[model].table, items, doc.key))
  {
    hide ReplaceWritten, Overwrites, Agrees, ReplacedTable;
    var p := db.profiles[model];
    var time := if preserve then doc.time else Some(now);
    var r := Replace(db, model, doc, items, assets, preserve, now);
    ReplaceEffect(db, model, doc, items, assets, preserve, now);
    assert r.profiles[model] == ReplacedProfile(p, doc, items, time, now);
    assert r.profiles[model].provisioned == p.provisioned;
    if p.provisioned {
      ReplaceAgrees(p, doc, items, time, now);
    }
  }

  /** When its turn comes, the profile at `i` has a row whose chunking profile is the empty
      string among those the analysis accepts. */
  ghost predicate MisfiledAt(db: Db, work: seq<(string, Plan)>, i: nat, clean: Cleaner, now: int)
    requires i < |work|
  {
    match CertifyProfiles(db, work[..i], clean, now)
    case None => false
    case Some(d) =>
      var m := work[i].0;
      m in d.profiles && d.profiles[m].provisioned && !NoEmptyChunking(View(d.sources, d.profiles[m].table))
  }

  ghost predicate AgreesUnlessMisfiled(r: Db, db: Db, work: seq<(string, Plan)>, i: nat, clean: Cleaner, now: int)
    requires i < |work|
  {
    var m := work[i].0;
    m in r.profiles && if r.profiles[m].provisioned then Agrees(r.profiles[m]) <==> !MisfiledAt(db, work, i, clean, now)
                       else !MisfiledAt(db, work, i, clean, now)
  }

  /** Certification of the profiles visited so far has brought each of them in agreement, from
      any legacy tables, but for those with an empty chunking profile. */
  lemma {:induction false} CertifiedProfilesAgree(db: Db, work: seq<(string, Plan)>, clean: Cleaner, now: int)
    requires DistinctNames(work)
    ensures var r := CertifyProfiles(db, work, clean, now);
            r.Some? ==>
              && r.value.profiles.Keys == db.profiles.Keys && r.value.ready == db.ready
              && (forall i :: 0 <= i < |work| ==> AgreesUnlessMisfiled(r.value, db, work, i, clean, now))
  {
    if work != [] && CertifyProfiles(db, work, clean, now).Some? {
      var n := |work| - 1;
      CertifiedProfilesAgree(db, work[..n], clean, now);
      var d := CertifyProfiles(db, work[..n], clean, now).value;
      CertifyKeepsOthers(d, work[n].0, work[n].1, clean, now);
      var r := CertifyProfile(d, work[n].0, work[n].1, clean, now).value;
      forall i | 0 <= i < |work| ensures AgreesUnlessMisfiled(r, db, work, i, clean, now) {
        if i < n {
          assert AgreesUnlessMisfiled(d, db, work[..n], i, clean, now);
          assert work[..n][..i] == work[..i];
        }
      }
    }
  }

  lemma CertifyKeepsOthers(db: Db, m: string, plan: Plan, clean: Cleaner, now: int)
    ensures var r := CertifyProfile(db, m, plan, clean, now);
            r.Some? ==>
              && OthersKept(r.value, db, m) && r.value.profiles[m].provisioned == db.profiles[m].provisioned
              && (db.profiles[m].provisioned ==>
                    (Agrees(r.value.profiles[m]) <==> NoEmptyChunking(View(db.sources, db.profiles[m].table))))
  {
    hide ReconcileProfile, Agrees, Certifiable, PlanFor, NoEmptyChunking, View;
    if m in db.profiles && db.profiles[m].provisioned && PlanFor(db, m, plan) && Certifiable(db, m) {
      ReconciledProfile(db, m, plan, clean, now);
      CertifiedAgrees(db, m, plan, clean, now);
    }
  }

  /** Certification that sets `ready` over a misfiled profile. */
  ghost predicate Misfiles(db: Db, step: Step) {
    && step.Certification?
    && CertifyProfiles(db, step.work, step.clean, step.now).Some? && WorkNames(step.work) == db.profiles.Keys
    && exists i :: 0 <= i < |step.work| && MisfiledAt(db, step.work, i, step.clean, step.now)
  }

  /** What breaks the agreement: a publication onto another document's row while the catalog is
      ready, and a certification over an empty chunking profile. */
  ghost predicate Breaks(db: Db, step: Step) {
    (db.ready && Clashes(db, step)) || Misfiles(db, step)
  }

  /** From a state that is in agreement if it is ready, a step leads to another such state
      exactly unless it breaks the agreement. */
  lemma StepKeepsAgreement(db: Db, step: Step)
    requires Allowed(step) && ReadyAgrees(db)
    ensures ReadyAgrees(Next(db, step)) <==> !Breaks(db, step)
  {
    hide Agrees, Replace, DeleteMissing, CertifyProfiles, IngestItems, Overwrites, MisfiledAt;
    match step
    case Ingest(m, doc, chunks, assets, now) =>
      if m in db.profiles {
        ReplaceKeepsReady(db, m, doc, IngestItems(doc, chunks), assets, false, now);
        if db.ready && ReplaceOutcome(db, m, doc, false) == Written {
          PublicationAgrees(db, m, doc, IngestItems(doc, chunks), assets, false, now);
        }
      }
    case Cleanup(m, scan, order) =>
      if m in db.profiles {
        DeleteMissingEffect(db, m, scan, order);
        if Agrees(db.profiles[m]) {
          CleanupAgrees(db.profiles[m], scan);
        }
      }
    case WarmPublish(m, doc, items, assets, now) =>
      if m in db.profiles {
        ReplaceKeepsReady(db, m, doc, items, assets, true, now);
        if db.ready {
          PublicationAgrees(db, m, doc, items, assets, true, now);
        }
      }
    case SetStatus(m, status) =>
      if m in db.profiles {
        StatusAgrees(db.profiles[m], status);
      }
    case Register(m) =>
      NothingAgrees(Draft);
    case Suspend =>
    case Certification(work, clean, now) =>
      CertifiedAllAgree(db, step);
  }

  lemma ReplaceKeepsReady(db: Db, model: string, doc: Document, items: seq<Item>, assets: seq<AssetRecord>, preserve: bool, now: int)
    requires model in db.profiles
    ensures Replace(db, model, doc, items, assets, preserve, now).ready == db.ready
    ensures ReplaceOutcome(db, model, doc, preserve) != Written ==> Replace(db, model, doc, items, assets, preserve, now) == db
  {
    hide ReplaceWritten;
    ReplaceEffect(db, model, doc, items, assets, preserve, now);
  }

  lemma StatusAgrees(p: Profile, status: Status)
    ensures Agrees(p.(status := status)) <==> Agrees(p)
  {
  }

  lemma NothingAgrees(status: Status)
    ensures Agrees(Profile(status, true, map[], map[]))
  {
  }

  lemma CertifiedAllAgree(db: Db, step: Step)
    requires step.Certification? && Allowed(step) && ReadyAgrees(db)
    ensures ReadyAgrees(Certify(db, step.work, step.clean, step.now)) <==> !Misfiles(db, step)
  {
    hide Agrees, MisfiledAt, CertifyProfiles;
    var work, clean, now := step.work, step.clean, step.now;
    CertifiedProfilesAgree(db, work, clean, now);
    var r := CertifyProfiles(db, work, clean, now);
    if r.Some? && WorkNames(work) == db.profiles.Keys {
      if CatalogAgrees(r.value.(ready := true)) {
        forall i | 0 <= i < |work| ensures !MisfiledAt(db, work, i, clean, now) {
          assert AgreesUnlessMisfiled(r.value, db, work, i, clean, now);
        }
      }
      if forall i :: 0 <= i < |work| ==> !MisfiledAt(db, work, i, clean, now) {
        forall m | m in r.value.profiles && r.value.profiles[m].provisioned ensures Agrees(r.value.profiles[m]) {
          assert m in WorkNames(work);
          var w :| w in work && w.0 == m;
          var i :| 0 <= i < |work| && work[i] == w;
          assert AgreesUnlessMisfiled(r.value, db, work, i, clean, now);
        }
      }
    }
  }

  /** `ready` means agreement in every state of a run — any interleaving of the writers, from
      any legacy tables — exactly when none of its steps breaks it. */
  lemma ReadyMeansAgreement(db: Db, steps: seq<Step>)
    requires ReadyAgrees(db) && forall i :: 0 <= i < |steps| ==> Allowed(steps[i])
    ensures (forall n :: 0 <= n <= |steps| ==> ReadyAgrees(Run(db, steps[..n])))
       <==> (forall n :: 0 <= n < |steps| ==> !Breaks(Run(db, steps[..n]), steps[n]))
  {
    hide ReadyAgrees, Breaks, Next, Allowed;
    if forall n :: 0 <= n <= |steps| ==> ReadyAgrees(Run(db, steps[..n])) {
      forall n | 0 <= n < |steps| ensures !Breaks(Run(db, steps[..n]), steps[n]) {
        OneStepAgrees(db, steps, n);
        assert ReadyAgrees(Run(db, steps[..n + 1]));
      }
    }
    if forall n :: 0 <= n < |steps| ==> !Breaks(Run(db, steps[..n]), steps[n]) {
      forall n | 0 <= n <= |steps| ensures ReadyAgrees(Run(db, steps[..n])) {
        UnbrokenAgrees(db, steps, n);
      }
    }
  }

  lemma OneStepAgrees(db: Db, steps: seq<Step>, n: nat)
    requires (forall i :: 0 <= i < |steps| ==> Allowed(steps[i])) && n < |steps|
    requires ReadyAgrees(Run(db, steps[..n]))
    ensures ReadyAgrees(Run(db, steps[..n + 1])) <==> !Breaks(Run(db, steps[..n]), steps[n])
  {
    hide ReadyAgrees, Breaks, Next, Allowed;
    assert steps[..n + 1][..n] == steps[..n];
    StepKeepsAgreement(Run(db, steps[..n]), steps[n]);
  }

  lemma {:induction false} UnbrokenAgrees(db: Db, steps: seq<Step>, n: nat)
    requires ReadyAgrees(db) && (forall i :: 0 <= i < |steps| ==> Allowed(steps[i])) && n <= |steps|
    requires forall i :: 0 <= i < |steps| ==> !Breaks(Run(db, steps[..i]), steps[i])
    ensures ReadyAgrees(Run(db, steps[..n]))
  {
    hide ReadyAgrees, Breaks, Next, Allowed;
    if n > 0 {
      UnbrokenAgrees(db, steps, n - 1);
      OneStepAgrees(db, steps, n - 1);
    }
  }

  /** Where stored chunking profiles are absent or nonempty, certification misfiles nothing. */
  lemma ChunkedNeverMisfiles(db: Db, step: Step)
    requires AllChunked(db)
    ensures !Misfiles(db, step)
  {
    hide CertifyProfiles, NoEmptyChunking, View;
    if Misfiles(db, step) {
      var i :| 0 <= i < |step.work| && MisfiledAt(db, step.work, i, step.clean, step.now);
      ChunkedRecovers();
      CertificationKeepsRule(Chunked, db, step.work[..i], step.clean, step.now);
      var d := CertifyProfiles(db, step.work[..i], step.clean, step.now).value;
      ChunkedView(d.sources, d.profiles[step.work[i].0].table);
    }
  }

  /** And stored chunking profiles stay so, if publications come under named profiles. */
  lemma NamedRunsMisfileNothing(db: Db, steps: seq<Step>, n: nat)
    requires AllChunked(db) && n < |steps|
    requires forall i :: 0 <= i < |steps| ==> Allowed(steps[i]) && (Publishing(steps[i]).Some? ==> Publishing(steps[i]).value.0.chunking != "")
    ensures AllChunked(Run(db, steps[..n])) && !Misfiles(Run(db, steps[..n]), steps[n])
  {
    hide Next, ItemsKeep, EveryRow, Recoverable, Publishing, Misfiles, ItemsBelong;
    forall i | 0 <= i < |steps| && Publishing(steps[i]).Some? ensures ItemsKeep(Chunked, Publishing(steps[i]).value.1) {
      NamedIsChunked(Publishing(steps[i]).value.0, Publishing(steps[i]).value.1);
    }
    ChunkedRecovers();
    RunKeepsRule(Chunked, db, steps, n);
    ChunkedNeverMisfiles(Run(db, steps[..n]), steps[n]);
  }

  // ---- When nothing clashes -------------------------------------------------------------------

  /** A row says whose it is: to SQL, once it is an object, and to the recovery. */
  ghost predicate SpeaksOf(id: RowId, m: Metadata, k: DocKey) {
    !m.Malformed? ==>
      && (SqlGroup(Object(m.p)).Some? ==> SqlGroup(Object(m.p)).value == k)
      && (Claim(id, m).Some? ==> Claim(id, m).value.0 == k)
  }

  /** Nothing but a document's own chunks is stored under the keys that ingestion generates
      for it: legacy keys do not collide with new ones. */
  ghost predicate Uncollided(id: RowId, m: Metadata) {
    Chunked(id, m) && forall k: DocKey, i: nat ::
      PlainNames(k) && id == Uuid5(RowName(k.workspace, ChunkId(k.doc, k.chunking, i))) ==> SpeaksOf(id, m, k)
  }

  lemma UncollidedRecovers()
    ensures Recoverable(Uncollided)
  {
    forall sources: map<DocKey, Source>, id: RowId, row: ChunkRow | Uncollided(id, row.metadata)
      ensures Uncollided(id, RecoveredRow(sources, row).metadata)
    {
      forall k: DocKey, i: nat | PlainNames(k) && id == Uuid5(RowName(k.workspace, ChunkId(k.doc, k.chunking, i)))
        ensures SpeaksOf(id, RecoveredRow(sources, row).metadata, k)
      {
        assert SpeaksOf(id, row.metadata, k);
      }
    }
  }

  lemma IngestedIsUncollided(doc: Document, chunks: seq<Chunk>)
    requires PlainNames(doc.key)
    ensures ItemsKeep(Uncollided, IngestItems(doc, chunks))
  {
    hide ChunkId, RowName;
    var items := IngestItems(doc, chunks);
    forall n, k: DocKey, i: nat | 0 <= n < |items| && PlainNames(k) && ItemId(items[n]) == Uuid5(RowName(k.workspace, ChunkId(k.doc, k.chunking, i)))
      ensures SpeaksOf(ItemId(items[n]), ItemRow(items[n]).metadata, k)
    {
      RowNameInjective(doc.key.workspace, doc.key.doc, doc.key.chunking, chunks[n].index, k.workspace, k.doc, k.chunking, i);
    }
  }

  lemma IngestedOverwritesNothing(t: Table, doc: Document, chunks: seq<Chunk>)
    requires PlainNames(doc.key) && RowsKeep(Uncollided, t)
    ensures !Overwrites(t, IngestItems(doc, chunks), doc.key)
  {
    hide ChunkId, RowName;
    var items := IngestItems(doc, chunks);
    forall n | 0 <= n < |items| && ItemId(items[n]) in t && SqlGroup(t[ItemId(items[n])].metadata).Some?
      ensures SqlGroup(t[ItemId(items[n])].metadata) == Some(doc.key)
    {
      var id := ItemId(items[n]);
      assert id == Uuid5(RowName(doc.key.workspace, ChunkId(doc.key.doc, doc.key.chunking, chunks[n].index)));
      assert Uncollided(id, t[id].metadata);
      assert SpeaksOf(id, t[id].metadata, doc.key);
    }
  }

  /** Names are plain in ingestion, and a warm takes no key that ingestion generates for
      another document. */
  ghost predicate PlainStep(step: Step) {
    match step
    case Ingest(_, doc, _, _, _) => PlainNames(doc.key)
    case WarmPublish(_, _, items, _, _) => ItemsKeep(Uncollided, items)
    case _ => true
  }

  /** Where legacy keys do not collide with new ones, ingestion never clashes, however the
      writers interleave: only the publications of a warm can. */
  lemma OnlyWarmsClash(db: Db, steps: seq<Step>, n: nat)
    requires EveryRow(Uncollided, db) && (forall i :: 0 <= i < |steps| ==> PlainStep(steps[i])) && n < |steps|
    requires !steps[n].WarmPublish?
    ensures !Clashes(Run(db, steps[..n]), steps[n])
  {
    hide Next, Uncollided, IngestItems, Overwrites, Run, Recoverable;
    forall i | 0 <= i < |steps| && Publishing(steps[i]).Some? ensures ItemsKeep(Uncollided, Publishing(steps[i]).value.1) {
      assert PlainStep(steps[i]);
      match steps[i]
      case Ingest(_, doc, chunks, _, _) => IngestedIsUncollided(doc, chunks);
      case WarmPublish(_, _, _, _, _) =>
    }
    UncollidedRecovers();
    RunKeepsRule(Uncollided, db, steps, n);
    match steps[n]
    case Ingest(m, doc, chunks, _, _) =>
      assert PlainStep(steps[n]);
      if m in Run(db, steps[..n]).profiles {
        IngestedOverwritesNothing(Run(db, steps[..n]).profiles[m].table, doc, chunks);
      }
    case _ =>
  }

  /** What an owner map asks of a row, as a rule. */
  ghost function OwnerRule(owner: Owner): RowRule {
    (id, m) => RowSound(owner, id, m)
  }

  ghost predicate OwnedStep(owner: Owner, step: Step) {
    match step
    case Ingest(_, doc, _, _, _) => PlainNames(doc.key)
    case WarmPublish(_, doc, items, _, _) => ItemsSound(owner, items, doc.key)
    case _ => true
  }

  /** With an owner for every chunk identity, nothing clashes, warms included. */
  lemma OwnedNeverClashes(owner: Owner, db: Db, steps: seq<Step>, n: nat)
    requires GoodOwner(owner) && Sound(owner, db) && (forall i :: 0 <= i < |steps| ==> OwnedStep(owner, steps[i])) && n < |steps|
    ensures Sound(owner, Run(db, steps[..n])) && !Clashes(Run(db, steps[..n]), steps[n])
  {
    hide Next, IngestItems, Overwrites, Run, Recoverable, RowSound;
    var rule := OwnerRule(owner);
    forall i | 0 <= i < |steps| && Publishing(steps[i]).Some?
      ensures ItemsKeep(rule, Publishing(steps[i]).value.1) && ItemsSound(owner, Publishing(steps[i]).value.1, Publishing(steps[i]).value.0)
    {
      assert OwnedStep(owner, steps[i]);
      match steps[i]
      case Ingest(_, doc, chunks, _, _) =>
        IngestItemsSound(owner, doc, chunks);
        SoundItemsKeep(owner, IngestItems(doc, chunks), doc.key);
      case WarmPublish(_, doc, items, _, _) => SoundItemsKeep(owner, items, doc.key);
    }
    OwnerRuleRecovers(owner);
    assert EveryRow(rule, db);
    RunKeepsRule(rule, db, steps, n);
    var d := Run(db, steps[..n]);
    assert Sound(owner, d);
    match steps[n]
    case Ingest(m, doc, chunks, _, _) =>
      if m in d.profiles {
        SoundItemsOverwriteNothing(owner, d.profiles[m].table, IngestItems(doc, chunks), doc.key);
      }
    case WarmPublish(m, doc, items, _, _) =>
      if m in d.profiles {
        SoundItemsOverwriteNothing(owner, d.profiles[m].table, items, doc.key);
      }
    case _ =>
  }

  lemma SoundItemsKeep(owner: Owner, items: seq<Item>, k: DocKey)
    requires ItemsSound(owner, items, k)
    ensures ItemsKeep(OwnerRule(owner), items)
  {
  }

  lemma OwnerRuleRecovers(owner: Owner)
    ensures Recoverable(OwnerRule(owner))
  {
    forall sources: map<DocKey, Source>, id: RowId, row: ChunkRow | RowSound(owner, id, row.metadata) ensures RowSound(owner, id, RecoveredRow(sources, row).metadata) {
      RecoveredRowSound(owner, sources, id, row);
    }
  }
}
