/** Warming and the agreement of catalog and table: exactly when a warm keeps it at every
    commit, exactly when its failures are atomic, and a certified database on which neither
    holds. */
module WarmAgreement {
  import opened Text
  import opened ChunkIdentity
  import opened Store
  import opened Agreement
  import opened Reconcile
  import opened Runs
  import opened EmbeddingCache
  import opened Republication
  import opened WarmSource
  import opened WarmTables
  import opened W = Warming

  // ---- Every commit of a warm ---------------------------------------------------------

  lemma RangeProfile(db: Db, model: string, pubs: seq<Pub>, n: nat, clock: Clock)
    requires 0 < n <= |pubs| && model in db.profiles
    ensures var p := PublishRange(db, model, pubs, 0, n - 1, clock).profiles[model];
            PublishRange(db, model, pubs, 0, n, clock).profiles[model]
              == ReplacedProfile(p, pubs[n - 1].doc, pubs[n - 1].items, pubs[n - 1].doc.time, clock(n - 1))
  {
    hide ReplaceWritten, ReplacedProfile;
    var d := PublishRange(db, model, pubs, 0, n - 1, clock);
    var pub := pubs[n - 1];
    ReplaceEffect(d, model, pub.doc, pub.items, pub.assets, true, clock(n - 1));
  }

  ghost predicate AgreesAt(db: Db, model: string, pubs: seq<Pub>, n: nat, clock: Clock)
    requires n <= |pubs| && model in db.profiles
  {
    Agrees(PublishRange(db, model, pubs, 0, n, clock).profiles[model])
  }

  lemma OneMoreAgrees(db: Db, model: string, pubs: seq<Pub>, n: nat, clock: Clock)
    requires n < |pubs| && model in db.profiles && PubsProper(pubs) && AgreesAt(db, model, pubs, n, clock)
    ensures AgreesAt(db, model, pubs, n + 1, clock)
       <==> !Overwrites(TableAfter(db.profiles[model].table, pubs, n), pubs[n].items, pubs[n].doc.key)
  {
    hide Agrees, Overwrites, ReplacedProfile, PublishRange, TableAfter;
    RangeProfile(db, model, pubs, n + 1, clock);
    RangeTable(db, model, pubs, n, clock);
    ReplaceAgrees(PublishRange(db, model, pubs, 0, n, clock).profiles[model], pubs[n].doc, pubs[n].items, pubs[n].doc.time, clock(n));
  }

  /** A warm keeps catalog and table in agreement at each of its commits exactly when no two
      of its documents share a chunk key and none of its chunks lands on a row of a document
      that is not published at or before its turn. */
  lemma WarmAgreesExactly(db: Db, model: string, pubs: seq<Pub>, clock: Clock)
    requires model in db.profiles && PubsProper(pubs) && Agrees(db.profiles[model])
    ensures (forall n :: 0 <= n <= |pubs| ==> AgreesAt(db, model, pubs, n, clock))
       <==> Apart(pubs) && Clear(db.profiles[model].table, pubs)
  {
    hide Agrees, Overwrites, PublishRange, TableAfter, PubsProper, Apart, Clear, ClearAt, ItemIds, AgreesAt, RowsSettledUpTo;
    var t := db.profiles[model].table;
    if forall n :: 0 <= n <= |pubs| ==> AgreesAt(db, model, pubs, n, clock) {
      forall i | 0 <= i < |pubs| ensures !Overwrites(TableAfter(t, pubs, i), pubs[i].items, pubs[i].doc.key) {
        assert AgreesAt(db, model, pubs, i, clock) && AgreesAt(db, model, pubs, i + 1, clock);
        OneMoreAgrees(db, model, pubs, i, clock);
      }
      UnhitMeansApart(t, pubs, |pubs|);
      AllApart(t, pubs);
    }
    if Apart(pubs) && Clear(t, pubs) {
      forall n | 0 <= n <= |pubs| ensures AgreesAt(db, model, pubs, n, clock) {
        ApartAgrees(db, model, pubs, n, clock);
      }
    }
  }

  lemma AllApart(t: Table, pubs: seq<Pub>)
    requires forall i, j :: 0 <= i < j < |pubs| ==> ItemIds(pubs[i].items) !! ItemIds(pubs[j].items)
    requires forall i :: 0 <= i < |pubs| ==> ClearAt(t, pubs, i)
    ensures Apart(pubs) && Clear(t, pubs)
  {
  }

  lemma {:induction false} ApartAgrees(db: Db, model: string, pubs: seq<Pub>, n: nat, clock: Clock)
    requires n <= |pubs| && model in db.profiles && PubsProper(pubs) && Agrees(db.profiles[model])
    requires Apart(pubs) && Clear(db.profiles[model].table, pubs)
    ensures AgreesAt(db, model, pubs, n, clock)
  {
    hide Agrees, Overwrites, PubsProper, Apart, Clear, TableAfter, RowsSettledUpTo, SameRowsOf;
    if n > 0 {
      ApartAgrees(db, model, pubs, n - 1, clock);
      NothingSettled(db.profiles[model].table, pubs);
      PassSettles(db.profiles[model].table, pubs, 0, n - 1);
      OneMoreAgrees(db, model, pubs, n - 1, clock);
    }
  }

  // ---- Atomic failures ------------------------------------------------------------------

  /** Rows of no document are left as they were. */
  ghost predicate UngroupedStay(s: Table, t: Table) {
    forall id :: id in s && SqlGroup(s[id].metadata).None? ==> id in t && s[id] == t[id]
  }

  lemma PassKeepsUngrouped(t: Table, pubs: seq<Pub>, n: nat)
    requires n <= |pubs| && PubsProper(pubs)
    ensures UngroupedStay(TableAfter(t, pubs, n), t)
  {
    hide TableAfter, PubsProper;
    var s := TableAfter(t, pubs, n);
    forall id | id in s && SqlGroup(s[id].metadata).None? ensures id in t && s[id] == t[id] {
      if Writes(pubs, n, id) {
        WrittenIsGrouped(t, pubs, n, id);
      } else {
        UnwrittenRow(t, pubs, n, id);
      }
    }
  }

  /** Old or new, a document's count is right. */
  lemma OldOrNewAgrees(w: Client, model: string, copies: seq<Copy>, start: State, s: State)
    requires model in start.db.profiles && model in s.db.profiles && OldOrNew(w, model, copies, start, s)
    requires Agrees(start.db.profiles[model]) && UngroupedStay(s.db.profiles[model].table, start.db.profiles[model].table)
    ensures Agrees(s.db.profiles[model])
  {
    hide Goal, RowsSettled, SharedSettled;
    var pubs := Goal(w, start.cache, copies);
    var p, q := s.db.profiles[model], start.db.profiles[model];
    forall k
      ensures k in p.catalog ==> p.catalog[k].public.count == GroupCount(p.table, k)
      ensures GroupIds(p.table, k) != {} ==> k in p.catalog
    {
      if Untouched(s.db, start.db, model, k) {
        UntouchedAgrees(p, q, s.db, start.db, model, k);
      } else {
        var i :| 0 <= i < |pubs| && pubs[i].doc.key == k && Settled(s.db, model, pubs[i]);
      }
    }
    forall id | id in p.table ensures Filed(p.table[id].metadata, p.catalog) {
      if SqlGroup(p.table[id].metadata).Some? {
        assert id in GroupIds(p.table, SqlGroup(p.table[id].metadata).value);
      } else {
        assert Filed(q.table[id].metadata, q.catalog);
      }
    }
  }

  lemma UntouchedAgrees(p: Profile, q: Profile, a: Db, b: Db, model: string, k: DocKey)
    requires model in a.profiles && model in b.profiles && p == a.profiles[model] && q == b.profiles[model]
    requires Untouched(a, b, model, k) && Agrees(q)
    ensures k in p.catalog ==> p.catalog[k].public.count == GroupCount(p.table, k)
    ensures GroupIds(p.table, k) != {} ==> k in p.catalog
  {
    if GroupIds(p.table, k) != {} {
      var id :| id in GroupIds(p.table, k);
      assert id in GroupIds(q.table, k);
      assert Filed(q.table[id].metadata, q.catalog);
    }
  }

  /** All attempts, whatever they are, leave each document old or new. */
  ghost predicate AlwaysAtomic(w: Client, model: string, copies: seq<Copy>, start: State)
    requires model in start.db.profiles
  {
    forall attempts: seq<Attempt> :: (forall i :: 0 <= i < |attempts| ==> Reaches(copies, attempts[i])) ==>
      OldOrNew(w, model, copies, start, TryAll(w, model, copies, start, attempts))
  }

  /** An attempt that stops right after `n` documents. */
  function UpTo(copies: seq<Copy>, n: nat, clock: Clock): Attempt
    requires n <= |copies|
  {
    Attempt(n, |Texts(copies, n)|, clock)
  }

  lemma UpToReaches(copies: seq<Copy>, n: nat, clock: Clock)
    requires n <= |copies|
    ensures Reaches(copies, UpTo(copies, n, clock))
  {
    hide Texts;
    TextsPrefix(copies, n, |copies|);
    if n < |copies| {
      TextsPrefix(copies, n, n + 1);
    }
  }

  /** From a table in agreement, failures of a warm are atomic — each document wholly old or
      wholly new after any attempts — exactly when no two of its documents share a chunk key
      and none of its chunks lands on a row of a document not published at or before its turn. */
  lemma AtomicExactly(w: Client, model: string, copies: seq<Copy>, start: State)
    requires model in start.db.profiles && Agrees(start.db.profiles[model])
    requires PubsProper(Goal(w, start.cache, copies)) && WarmInv(start.db, model, Goal(w, start.cache, copies))
    ensures AlwaysAtomic(w, model, copies, start)
       <==> Apart(Goal(w, start.cache, copies)) && Clear(start.db.profiles[model].table, Goal(w, start.cache, copies))
  {
    hide Agrees, Apart, Clear, PubsProper, WarmInv, Goal, OldOrNew, TryAll, AgreesAt, Reaches;
    var pubs := Goal(w, start.cache, copies);
    if Apart(pubs) && Clear(start.db.profiles[model].table, pubs) {
      forall attempts: seq<Attempt> | forall i :: 0 <= i < |attempts| ==> Reaches(copies, attempts[i])
        ensures OldOrNew(w, model, copies, start, TryAll(w, model, copies, start, attempts))
      {
        AttemptsAreAtomic(w, model, copies, start, attempts);
      }
    }
    if AlwaysAtomic(w, model, copies, start) {
      var clock: Clock := i => 0;
      var db := W.SetStatus(start.db, model, Status.Warming);
      GoalLength(w, start.cache, copies);
      StatusAgrees(start.db.profiles[model], Status.Warming);
      forall n | 0 <= n <= |pubs| ensures AgreesAt(db, model, pubs, n, clock) {
        AtomicAgreesAt(w, model, copies, start, n, clock);
      }
      WarmAgreesExactly(db, model, pubs, clock);
    }
  }

  lemma AttemptsAreAtomic(w: Client, model: string, copies: seq<Copy>, start: State, attempts: seq<Attempt>)
    requires model in start.db.profiles && forall i :: 0 <= i < |attempts| ==> Reaches(copies, attempts[i])
    requires PubsProper(Goal(w, start.cache, copies)) && WarmInv(start.db, model, Goal(w, start.cache, copies))
    requires Apart(Goal(w, start.cache, copies)) && Clear(start.db.profiles[model].table, Goal(w, start.cache, copies))
    ensures OldOrNew(w, model, copies, start, TryAll(w, model, copies, start, attempts))
  {
    hide Apart, Clear, PubsProper, Unrepeated, WarmInv, Try, TryAll, Goal, OldOrNew, Progress, Reaches;
    ProperIsUnrepeated(Goal(w, start.cache, copies));
    var clock: Clock := i => 0;
    var k, e := AttemptsProgress(w, model, copies, start, attempts, clock);
    AttemptsAtomic(w, model, copies, start, attempts, k, e, clock);
  }

  lemma AtomicAgreesAt(w: Client, model: string, copies: seq<Copy>, start: State, n: nat, clock: Clock)
    requires model in start.db.profiles && Agrees(start.db.profiles[model]) && n <= |copies|
    requires PubsProper(Goal(w, start.cache, copies)) && AlwaysAtomic(w, model, copies, start)
    ensures |Goal(w, start.cache, copies)| == |copies|
    ensures AgreesAt(W.SetStatus(start.db, model, Status.Warming), model, Goal(w, start.cache, copies), n, clock)
  {
    hide Agrees, PubsProper, Goal, OldOrNew, Reaches, PublishRange, TableAfter, Try;
    var pubs := Goal(w, start.cache, copies);
    var a := UpTo(copies, n, clock);
    UpToReaches(copies, n, clock);
    var s := TryAll(w, model, copies, start, [a]);
    assert [a][..0] == [];
    assert s == Try(w, model, copies, start, a);
    GoalLength(w, start.cache, copies);
    TryFromStart(w, model, copies, start, a);
    RangeTable(W.SetStatus(start.db, model, Status.Warming), model, pubs, n, clock);
    PassKeepsUngrouped(start.db.profiles[model].table, pubs, n);
    assert OldOrNew(w, model, copies, start, s);
    OldOrNewAgrees(w, model, copies, start, s);
  }

  // ---- Two documents with one chunk id --------------------------------------------------------

  /** A legacy row: its document named, its chunk id given by hand. */
  function LegacyRow(w: string, doc: string, c: string): ChunkRow {
    ChunkRow(Object(Payload(Str(w), Str(doc), Null, Null, Some(c), Null, Str("text"), Null, Null, Null, Some({}))), "", [], "file")
  }

  const ONE := Legacy("1")
  const TWO := Legacy("2")

  function LegacyTable(w: string, a: string, b: string, c: string): Table {
    map[ONE := LegacyRow(w, a, c), TWO := LegacyRow(w, b, c)]
  }

  /** Two profiles: one with the legacy table, and an empty one to be warmed from it. */
  function LegacyDb(w: string, a: string, b: string, c: string): Db {
    Db(map["s" := Profile(Status.Ready, true, LegacyTable(w, a, b, c), map[]), "t" := Profile(Draft, true, map[], map[])],
       map[], map[], map[], {}, {w}, false)
  }

  function KeyIn(w: string, doc: string): DocKey {
    DocKey(w, DEFAULT_PROFILE, doc)
  }

  function LegacyPlan(w: string, a: string, b: string): Plan {
    Plan([Group(KeyIn(w, a), ONE), Group(KeyIn(w, b), TWO)], [])
  }

  /** The analysis sees the two rows as two clean documents: it looks for equal chunk ids
      within one document only. */
  lemma LegacyIsClean(w: string, a: string, b: string, c: string)
    requires w != "" && a != "" && b != "" && a != b
    ensures var t := LegacyTable(w, a, b, c);
            View(map[], t) == t && Clean(t) && GroupKeys(t) == {KeyIn(w, a), KeyIn(w, b)}
  {
    var t := LegacyTable(w, a, b, c);
    assert ONE != TWO;
    assert forall id :: id in t <==> id == ONE || id == TWO;
    assert Recover(map[], t[ONE]) == Scoped(t[ONE].metadata, None);
    assert Recover(map[], t[TWO]) == Scoped(t[TWO].metadata, None);
    assert View(map[], t) == t;
    assert WellFormed(t[ONE].metadata) && FileKey(t[ONE].metadata.p) == KeyIn(w, a);
    assert WellFormed(t[TWO].metadata) && FileKey(t[TWO].metadata.p) == KeyIn(w, b);
    forall k | k in GroupKeys(t) ensures GroupConsistent(t, k) {
      assert forall x :: x in t && Member(t, x, k) ==> x == if k == KeyIn(w, a) then ONE else TWO;
    }
  }

  lemma LegacyPlanned(w: string, a: string, b: string, c: string)
    requires w != "" && a != "" && b != "" && a != b
    ensures var db := LegacyDb(w, a, b, c);
            PlanFor(db, "s", LegacyPlan(w, a, b)) && Certifiable(db, "s")
  {
    hide Clean, View;
    LegacyIsClean(w, a, b, c);
    var db := LegacyDb(w, a, b, c);
    var t := LegacyTable(w, a, b, c);
    var groups := LegacyPlan(w, a, b).groups;
    assert db.profiles["s"].table == t;
    assert groups[..1][..0] == [] && groups[..1][0] == groups[0];
    assert GroupKeySet(groups[..1]) == {KeyIn(w, a)};
    assert GroupKeySet(groups) == {KeyIn(w, a), KeyIn(w, b)};
    assert Stale(map[], t) == {};
    assert AssetIds(t, KeyIn(w, a)) == {} && AssetIds(t, KeyIn(w, b)) == {};
  }

  lemma EmptyPlanned(db: Db)
    requires "t" in db.profiles && db.profiles["t"] == Profile(Draft, true, map[], map[])
    ensures PlanFor(db, "t", Plan([], [])) && Certifiable(db, "t")
  {
    assert View(db.sources, map[]) == map[];
    assert GroupKeys(map[]) == {};
    assert Stale(map[], map[]) == {};
  }

  function LegacyWork(w: string, a: string, b: string): seq<(string, Plan)> {
    [("s", LegacyPlan(w, a, b)), ("t", Plan([], []))]
  }

  /** The whole database is certified. */
  lemma LegacyCertified(w: string, a: string, b: string, c: string, clean: Cleaner, now: int)
    requires w != "" && a != "" && b != "" && a != b
    ensures var d := Certify(LegacyDb(w, a, b, c), LegacyWork(w, a, b), clean, now);
            && d.ready && "t" in d.profiles && d.profiles["t"].provisioned && d.profiles["t"].table == map[]
  {
    hide ReconcileProfile, PlanFor, Certifiable, View, LegacyPlan, LegacyTable, Rebuilt;
    var db := LegacyDb(w, a, b, c);
    var work := LegacyWork(w, a, b);
    LegacyPlanned(w, a, b, c);
    ReconciledProfile(db, "s", LegacyPlan(w, a, b), clean, now);
    var d := ReconcileProfile(db, "s", LegacyPlan(w, a, b), clean, now);
    assert "s"[0] != "t"[0];
    EmptyPlanned(d);
    ReconciledProfile(d, "t", Plan([], []), clean, now);
    assert work[..1][..0] == [] && work[..1][0] == work[0] && |work[..1]| == 1;
    assert CertifyProfiles(db, [], clean, now) == Some(db);
    assert CertifyProfiles(db, work[..1], clean, now) == Some(d);
    var e := ReconcileProfile(d, "t", Plan([], []), clean, now);
    assert CertifyProfiles(db, work, clean, now) == Some(e);
    assert WorkNames(work) == {"s", "t"} by {
      assert work[0] in work && work[1] in work;
    }
    assert db.profiles.Keys == {"s", "t"};
    NothingRebuilt(d.sources);
  }

  lemma NothingRebuilt(sources: map<DocKey, Source>)
    ensures Rebuilt(sources, map[]) == map[]
  {
  }

  /** What a warm of the legacy documents publishes: each with the one chunk it has. */
  function LegacyCopy(w: string, doc: string, c: string, id: RowId, now: int): Step {
    WarmPublish("t", Document(KeyIn(w, doc), Display(doc, "file", "text"), "text", None, "file", None, None),
                [Copied(id, LegacyRow(w, doc, c))], [], now)
  }

  function LegacySteps(w: string, a: string, b: string, c: string, clean: Cleaner, now: int): seq<Step> {
    [Certification(LegacyWork(w, a, b), clean, now), LegacyCopy(w, a, c, ONE, now), LegacyCopy(w, b, c, TWO, now)]
  }

  lemma LegacyAllowed(db: Db, w: string, doc: string, c: string, id: RowId, now: int)
    ensures Allowed(LegacyCopy(w, doc, c, id, now)) && !Misfiles(db, LegacyCopy(w, doc, c, id, now))
  {
  }

  /** Two legacy documents of one workspace with the same chunk id are certified, and the
      catalog is ready; warming both of them makes it wrong while it stays ready. */
  lemma SharedChunkIdBreaksReady(w: string, a: string, b: string, c: string, clean: Cleaner, now: int)
    requires w != "" && a != "" && b != "" && a != b
    ensures var db, steps := LegacyDb(w, a, b, c), LegacySteps(w, a, b, c, clean, now);
            && !db.ready && (forall i :: 0 <= i < |steps| ==> Allowed(steps[i]))
            && ReadyAgrees(Run(db, steps[..1])) && Run(db, steps[..1]).ready
            && Run(db, steps).ready && !CatalogAgrees(Run(db, steps))
  {
    hide ReadyAgrees, Certify, Replace, LegacyCopy, Clashes, EveryRow, LegacyDb, CatalogAgrees, LegacyWork, Recoverable;
    var db, steps := LegacyDb(w, a, b, c), LegacySteps(w, a, b, c, clean, now);
    var one := Certify(db, LegacyWork(w, a, b), clean, now);
    var two := Next(one, LegacyCopy(w, a, c, ONE, now));
    LegacyCertified(w, a, b, c, clean, now);
    LegacyAllowed(one, w, a, c, ONE, now);
    LegacyAllowed(two, w, b, c, TWO, now);
    FreshDb(w, a, b, c);
    LegacyWorkDistinct(w, a, b);
    assert Allowed(steps[0]);
    ChunkedNeverMisfiles(db, steps[0]);
    StepKeepsAgreement(db, steps[0]);
    FirstCopy(one, w, a, b, c, now);
    StepKeepsAgreement(one, steps[1]);
    StepKeepsAgreement(two, steps[2]);
    SecondCopyStaysReady(two, w, b, c, now);
    assert steps[..1] == [steps[0]] && steps[..2] == [steps[0], steps[1]] && steps[..3] == steps;
    assert [steps[0]][..0] == [] && [steps[0], steps[1]][..1] == [steps[0]] && steps[..2][1] == steps[1];
    assert Run(db, []) == db;
    assert Run(db, [steps[0]]) == one;
    assert Run(db, [steps[0], steps[1]]) == two;
    assert Run(db, steps) == Next(two, steps[2]);
    NotReadyAgrees(Run(db, steps));
  }

  lemma LegacyWorkDistinct(w: string, a: string, b: string)
    ensures DistinctNames(LegacyWork(w, a, b))
  {
    assert "s"[0] != "t"[0];
  }

  lemma NotReadyAgrees(db: Db)
    requires db.ready && !ReadyAgrees(db)
    ensures !CatalogAgrees(db)
  {
  }

  lemma FreshDb(w: string, a: string, b: string, c: string)
    ensures var db := LegacyDb(w, a, b, c);
            !db.ready && AllChunked(db) && ReadyAgrees(db)
  {
  }

  lemma FirstCopy(d: Db, w: string, a: string, b: string, c: string, now: int)
    requires a != b && d.ready && "t" in d.profiles && d.profiles["t"].provisioned && d.profiles["t"].table == map[]
    ensures !Clashes(d, LegacyCopy(w, a, c, ONE, now))
    ensures var e := Next(d, LegacyCopy(w, a, c, ONE, now));
            e.ready && "t" in e.profiles && Clashes(e, LegacyCopy(w, b, c, TWO, now))
  {
    hide ReplaceWritten;
    var doc := LegacyCopy(w, a, c, ONE, now).doc;
    var items := [Copied(ONE, LegacyRow(w, a, c))];
    var more := [Copied(TWO, LegacyRow(w, b, c))];
    ReplaceEffect(d, "t", doc, items, [], true, now);
    var e := Next(d, LegacyCopy(w, a, c, ONE, now));
    var t := e.profiles["t"].table;
    assert t == ReplacedTable(map[], doc.key, items);
    assert items[..0] == [];
    var id := ItemId(more[0]);
    assert ItemId(items[0]) == id;
    UpsertShape(DeleteGroups(map[], {doc.key}), items);
    assert ItemId(items[0]) in ItemIds(items);
    assert SqlGroup(t[id].metadata) == Some(KeyIn(w, a));
    assert 0 < |more| && ItemId(more[0]) in t;
  }

  lemma SecondCopyStaysReady(d: Db, w: string, b: string, c: string, now: int)
    requires d.ready && "t" in d.profiles
    ensures Next(d, LegacyCopy(w, b, c, TWO, now)).ready
  {
    hide Replace;
    var s := LegacyCopy(w, b, c, TWO, now);
    ReplaceKeepsReady(d, "t", s.doc, s.items, s.assets, true, now);
  }
}
