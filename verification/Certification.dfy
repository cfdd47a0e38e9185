/** The certification script: the analysis loops and the transaction that rewrites the
    catalog and raises the ready flag. */
module Certification {
  import opened Text
  import opened ChunkIdentity
  import opened Store
  import opened Agreement
  import opened Reconcile
  import opened Runs
  import opened Publication

  // ---- analyze_chunks ------------------------------------------------------------

  /** One row's place in a group: what all rows of the group must share, and its identity. */
  predicate Agreeing(v: Table, first: RowId, id: RowId)
    requires first in v && WellFormed(v[first].metadata) && id in v && WellFormed(v[id].metadata)
  {
    var p, q := v[first].metadata.p, v[id].metadata.p;
    && RowPath(v[id], q) == RowPath(v[first], p) && Kind(q) == Kind(p) && q.title == p.title
    && IsText(RowPath(v[id], q)) && !Unhashable(q.hash) && !Unhashable(q.root)
  }

  ghost predicate Distinct<T>(s: seq<T>) {
    forall i, j :: 0 <= i < j < |s| ==> s[i] != s[j]
  }

  /** The rows among `done` that belong to a group, each once. */
  ghost predicate Lists(v: Table, k: DocKey, entries: seq<RowId>, done: seq<RowId>) {
    entries != [] && Distinct(entries) && (forall id :: id in entries <==> id in done && Member(v, id, k))
  }

  ghost predicate ListsGroup(v: Table, k: DocKey, entries: seq<RowId>) {
    && entries != [] && Distinct(entries) && (forall id :: id in entries <==> Member(v, id, k))
    && (forall i :: 0 <= i < |entries| ==> Member(v, entries[i], k))
  }

  function IdentityAt(v: Table, id: RowId): string
    requires id in v && WellFormed(v[id].metadata)
  {
    Identity(id, v[id].metadata.p)
  }

  function HashAt(v: Table, id: RowId): Value
    requires id in v && WellFormed(v[id].metadata)
  {
    v[id].metadata.p.hash
  }

  function RootAt(v: Table, id: RowId): Value
    requires id in v && WellFormed(v[id].metadata)
  {
    v[id].metadata.p.root
  }

  /** Whether all hashes, or all roots, of a group are one. */
  lemma SharedByIndex(v: Table, k: DocKey, entries: seq<RowId>)
    requires ListsGroup(v, k, entries)
    ensures forall h :: SameHash(v, k, h) <==> forall i :: 0 <= i < |entries| ==> HashAt(v, entries[i]) == h
    ensures forall h :: SameRoot(v, k, h) <==> forall i :: 0 <= i < |entries| ==> RootAt(v, entries[i]) == h
  {
    forall a | a in v && Member(v, a, k) ensures exists i :: 0 <= i < |entries| && entries[i] == a {
      assert a in entries;
    }
  }

  lemma GroupByIndex(v: Table, k: DocKey, entries: seq<RowId>)
    requires ListsGroup(v, k, entries)
    ensures GroupConsistent(v, k) <==>
      && (forall i, j :: 0 <= i < j < |entries| ==> IdentityAt(v, entries[i]) != IdentityAt(v, entries[j]))
      && (forall i :: 0 <= i < |entries| ==> Agreeing(v, entries[0], entries[i]))
      && !(HashAt(v, entries[0]).Other? && forall i :: 0 <= i < |entries| ==> HashAt(v, entries[i]) == HashAt(v, entries[0]))
      && !(RootAt(v, entries[0]).Other? && forall i :: 0 <= i < |entries| ==> RootAt(v, entries[i]) == RootAt(v, entries[0]))
  {
    hide SameHash, SameRoot;
    SharedByIndex(v, k, entries);
    assert Member(v, entries[0], k);
    if GroupConsistent(v, k) {
      forall i | 0 <= i < |entries| ensures Agreeing(v, entries[0], entries[i]) {
        assert Member(v, entries[0], k) && Member(v, entries[i], k);
      }
      forall i, j | 0 <= i < j < |entries| ensures IdentityAt(v, entries[i]) != IdentityAt(v, entries[j]) {
        assert Member(v, entries[i], k) && Member(v, entries[j], k);
      }
    }
  }

  /** The rows of a group, one after another: identities so far, and agreement with the first. */
  method CheckRows(v: Table, k: DocKey, entries: seq<RowId>) returns (ok: bool)
    requires ListsGroup(v, k, entries)
    ensures ok <==>
      && (forall i, j :: 0 <= i < j < |entries| ==> IdentityAt(v, entries[i]) != IdentityAt(v, entries[j]))
      && (forall i :: 0 <= i < |entries| ==> Agreeing(v, entries[0], entries[i]))
  {
    hide Agreeing, IdentityAt;
    var identities: set<string> := {};
    ok := true;
    var i := 0;
    while i < |entries|
      invariant i <= |entries|
      invariant forall x :: x in identities <==> exists j :: 0 <= j < i && IdentityAt(v, entries[j]) == x
      invariant ok <==>
        && (forall a, b :: 0 <= a < b < i ==> IdentityAt(v, entries[a]) != IdentityAt(v, entries[b]))
        && (forall a :: 0 <= a < i ==> Agreeing(v, entries[0], entries[a]))
    {
      var identity := IdentityAt(v, entries[i]);
      if identity in identities || !Agreeing(v, entries[0], entries[i]) {
        ok := false;
      }
      identities := identities + {identity};
      i := i + 1;
    }
  }

  method CheckGroup(v: Table, k: DocKey, entries: seq<RowId>) returns (ok: bool)
    requires ListsGroup(v, k, entries)
    ensures ok <==> GroupConsistent(v, k)
  {
    hide GroupConsistent, Agreeing, IdentityAt, HashAt, RootAt;
    GroupByIndex(v, k, entries);
    ok := CheckRows(v, k, entries);
    var oneHash := forall i :: 0 <= i < |entries| ==> HashAt(v, entries[i]) == HashAt(v, entries[0]);
    var oneRoot := forall i :: 0 <= i < |entries| ==> RootAt(v, entries[i]) == RootAt(v, entries[0]);
    if (oneHash && HashAt(v, entries[0]).Other?) || (oneRoot && RootAt(v, entries[0]).Other?) {
      ok := false;
    }
  }

  // The first loop: rows filed under their document.

  ghost predicate Grouped(v: Table, members: map<DocKey, seq<RowId>>, done: seq<RowId>) {
    && (forall k :: k in members ==> Lists(v, k, members[k], done))
    && (forall id :: id in done && id in v && WellFormed(v[id].metadata) ==> FileKey(v[id].metadata.p) in members)
  }

  function Entries(members: map<DocKey, seq<RowId>>, k: DocKey): seq<RowId> {
    if k in members then members[k] else []
  }

  lemma GroupOne(v: Table, members: map<DocKey, seq<RowId>>, done: seq<RowId>, id: RowId)
    requires Grouped(v, members, done) && id in v && id !in done
    ensures WellFormed(v[id].metadata) ==>
              var k := FileKey(v[id].metadata.p);
              Grouped(v, members[k := Entries(members, k) + [id]], done + [id])
    ensures !WellFormed(v[id].metadata) ==> Grouped(v, members, done + [id])
  {
    if WellFormed(v[id].metadata) {
      var k := FileKey(v[id].metadata.p);
      assert k !in members ==> forall x :: x in done ==> !Member(v, x, k);
    }
  }

  /** The loop so far: the keys met, each once, and the rows filed under them. */
  /** The rows among these that the analysis cannot place. */
  function MalformedIn(v: Table, ids: seq<RowId>): set<RowId> {
    set id | id in ids && id in v && !WellFormed(v[id].metadata)
  }

  ghost predicate GroupedSoFar(v: Table, keys: seq<DocKey>, members: map<DocKey, seq<RowId>>, malformed: nat, ids: seq<RowId>) {
    && malformed == |MalformedIn(v, ids)|
    && (set k | k in keys) == members.Keys && Distinct(keys)
    && Grouped(v, members, ids)
  }

  lemma MalformedOneMore(v: Table, ids: seq<RowId>, id: RowId)
    requires id in v && id !in ids
    ensures |MalformedIn(v, ids + [id])| == |MalformedIn(v, ids)| + if WellFormed(v[id].metadata) then 0 else 1
  {
    hide WellFormed;
    assert MalformedIn(v, ids + [id]) == MalformedIn(v, ids) + if WellFormed(v[id].metadata) then {} else {id};
  }

  method GroupRow(v: Table, keys0: seq<DocKey>, members0: map<DocKey, seq<RowId>>, malformed0: nat, ghost ids: seq<RowId>, id: RowId)
    returns (keys: seq<DocKey>, members: map<DocKey, seq<RowId>>, malformed: nat)
    requires id in v && id !in ids && GroupedSoFar(v, keys0, members0, malformed0, ids)
    ensures GroupedSoFar(v, keys, members, malformed, ids + [id])
  {
    hide WellFormed;
    keys, members, malformed := keys0, members0, malformed0;
    GroupOne(v, members, ids, id);
    if WellFormed(v[id].metadata) {
      WellFormedHasKey(v[id].metadata);
      var k := FileKey(v[id].metadata.p);
      if k !in members {
        assert k !in keys by {
          assert k in keys ==> k in (set x | x in keys);
        }
        keys := keys + [k];
      }
      members := members[k := Entries(members, k) + [id]];
    } else {
      malformed := malformed + 1;
    }
    MalformedOneMore(v, ids, id);
  }

  lemma WellFormedHasKey(m: Metadata)
    requires WellFormed(m)
    ensures m.Object? && m.p.workspace.Str? && m.p.doc.Str?
  {
  }

  method GroupRows(v: Table, ids: seq<RowId>)
    returns (keys: seq<DocKey>, members: map<DocKey, seq<RowId>>, malformed: nat)
    requires Enumerates(ids, v.Keys)
    ensures GroupedSoFar(v, keys, members, malformed, ids)
    ensures malformed == |set id | id in v && !WellFormed(v[id].metadata)|
  {
    hide GroupedSoFar;
    keys, members, malformed := [], map[], 0;
    NothingGrouped(v);
    var i := 0;
    while i < |ids|
      invariant i <= |ids| && GroupedSoFar(v, keys, members, malformed, ids[..i])
    {
      assert ids[i] in (set x | x in ids);
      assert ids[..i + 1] == ids[..i] + [ids[i]];
      keys, members, malformed := GroupRow(v, keys, members, malformed, ids[..i], ids[i]);
      i := i + 1;
    }
    assert ids[..i] == ids;
    CountedAll(v, keys, members, malformed, ids);
  }

  lemma CountedAll(v: Table, keys: seq<DocKey>, members: map<DocKey, seq<RowId>>, malformed: nat, ids: seq<RowId>)
    requires Enumerates(ids, v.Keys) && GroupedSoFar(v, keys, members, malformed, ids)
    ensures malformed == |set id | id in v && !WellFormed(v[id].metadata)|
    ensures malformed == 0 <==> forall id :: id in v ==> WellFormed(v[id].metadata)
  {
    hide WellFormed, Grouped, Distinct;
    var all := set id | id in v && !WellFormed(v[id].metadata);
    assert forall id :: id in ids <==> id in (set x | x in ids);
    assert MalformedIn(v, ids) == all;
    if malformed == 0 {
      assert all == {};
      forall id | id in v ensures WellFormed(v[id].metadata) {
        assert id !in all;
      }
    } else {
      var id :| id in all;
    }
  }

  lemma NothingGrouped(v: Table)
    ensures GroupedSoFar(v, [], map[], 0, [])
  {
  }

  lemma GroupedAll(v: Table, members: map<DocKey, seq<RowId>>, ids: seq<RowId>)
    requires Enumerates(ids, v.Keys) && Grouped(v, members, ids)
    ensures members.Keys == GroupKeys(v)
    ensures forall k :: k in members ==> ListsGroup(v, k, members[k])
    ensures forall id :: id in v <==> exists i :: 0 <= i < |ids| && ids[i] == id
  {
    forall id ensures id in v <==> id in ids {
      assert id in (set x | x in ids) <==> id in ids;
    }
    forall k | k in members ensures k in GroupKeys(v) {
      assert Member(v, members[k][0], k);
    }
  }

  // The second loop: one document per consistent group.

  ghost predicate AllConsistent(v: Table, keys: seq<DocKey>) {
    forall k :: k in keys ==> GroupConsistent(v, k)
  }

  ghost predicate OneGroupEach(groups: seq<Group>, keys: seq<DocKey>) {
    |groups| == |keys| && forall j :: 0 <= j < |keys| ==> groups[j].key == keys[j]
  }

  lemma OneMore(v: Table, keys: seq<DocKey>, i: nat)
    requires i < |keys|
    ensures keys[..i + 1] == keys[..i] + [keys[i]]
    ensures AllConsistent(v, keys[..i + 1]) <==> AllConsistent(v, keys[..i]) && GroupConsistent(v, keys[i])
  {
    assert keys[..i + 1] == keys[..i] + [keys[i]];
  }

  method CheckGroups(v: Table, keys: seq<DocKey>, members: map<DocKey, seq<RowId>>)
    returns (groups: seq<Group>, inconsistent: nat)
    requires forall k :: k in keys ==> k in members && ListsGroup(v, k, members[k])
    ensures inconsistent == 0 <==> AllConsistent(v, keys)
    ensures inconsistent == 0 ==> OneGroupEach(groups, keys)
    ensures Members(v, groups)
  {
    groups, inconsistent := [], 0;
    var i := 0;
    while i < |keys|
      invariant i <= |keys|
      invariant inconsistent == 0 <==> AllConsistent(v, keys[..i])
      invariant inconsistent == 0 ==> OneGroupEach(groups, keys[..i])
      invariant Members(v, groups)
    {
      OneMore(v, keys, i);
      var entries := members[keys[i]];
      var ok := CheckGroup(v, keys[i], entries);
      if ok {
        groups := groups + [Group(keys[i], entries[0])];
      } else {
        inconsistent := inconsistent + 1;
      }
      i := i + 1;
    }
    assert keys[..i] == keys;
  }

  lemma {:induction false} KeysOfGroups(groups: seq<Group>, keys: seq<DocKey>)
    requires OneGroupEach(groups, keys)
    ensures GroupKeySet(groups) == set k | k in keys
  {
    if groups != [] {
      var n := |groups| - 1;
      KeysOfGroups(groups[..n], keys[..n]);
      assert keys == keys[..n] + [keys[n]];
    }
  }

  lemma CleanByIndex(v: Table, ids: seq<RowId>, keys: seq<DocKey>)
    requires Enumerates(ids, v.Keys) && (set k | k in keys) == GroupKeys(v)
    ensures Clean(v) ==
      ((forall i :: 0 <= i < |ids| && ids[i] in v ==> WellFormed(v[ids[i]].metadata)) && AllConsistent(v, keys))
    ensures forall k :: k in keys ==> k in GroupKeys(v)
  {
    forall k ensures k in GroupKeys(v) <==> k in keys {
      assert k in (set x | x in keys) <==> k in keys;
    }
    forall id ensures id in v <==> id in ids {
      assert id in (set x | x in ids) <==> id in ids;
    }
  }

  /** `analyze_chunks`: malformed rows and inconsistent groups count as errors.  No error
      means the view is clean and the documents are exactly its groups. */
  method AnalyzeChunks(v: Table, ids: seq<RowId>) returns (groups: seq<Group>, errors: nat)
    requires Enumerates(ids, v.Keys)
    ensures errors == 0 <==> Clean(v)
    ensures errors == 0 ==> Members(v, groups) && GroupKeySet(groups) == GroupKeys(v)
    ensures errors == 0 ==> forall i, j :: 0 <= i < j < |groups| ==> groups[i].key != groups[j].key
  {
    hide WellFormed, MalformedIn;
    var keys, members, malformed := GroupRows(v, ids);
    CountedAll(v, keys, members, malformed, ids);
    GroupedAll(v, members, ids);
    CleanByIndex(v, ids, keys);
    var inconsistent;
    groups, inconsistent := CheckGroups(v, keys, members);
    errors := malformed + inconsistent;
    if errors == 0 {
      KeysOfGroups(groups, keys);
    }
  }

  // ---- reconcile -------------------------------------------------------------------

  method InSomeOrder<T(==)>(all: set<T>) returns (order: seq<T>)
    ensures Enumerates(order, all)
  {
    order := [];
    var rest := all;
    while rest != {}
      invariant rest <= all && Enumerates(order, all - rest)
      decreases rest
    {
      var x :| x in rest;
      assert x !in order by {
        assert x in order ==> x in (set y | y in order);
      }
      assert (set y | y in order + [x]) == (set y | y in order) + {x};
      assert all - (rest - {x}) == (all - rest) + {x};
      order := order + [x];
      rest := rest - {x};
    }
  }

  /** The document a group is published as: root and time filled in where they are known. */
  method ReadDocument(db: Database, v: Table, model: string, g: Group, clean: Cleaner) returns (doc: Document)
    requires model in db.profiles && Member(v, g.first, g.key)
    ensures doc == WithTime(db.Snapshot(), model, WithRoot(db.Snapshot(), LegacyDocument(v, g, clean)))
    ensures doc.key == g.key
  {
    doc := LegacyDocument(v, g, clean);
    if doc.root.None? && doc.key in db.sources && db.sources[doc.key].path == doc.path {
      doc := doc.(root := db.sources[doc.key].root);
    }
    var catalog := db.profiles[model].catalog;
    if doc.key in catalog && doc.hash.Some? && catalog[doc.key].hash == doc.hash {
      doc := doc.(time := catalog[doc.key].public.time);
    }
  }

  method ReplaceRefs(db: Database, model: string, k: DocKey, ids: set<string>)
    modifies db`refs
    ensures db.Snapshot() == old(db.Snapshot()).(refs := DeleteRefs(old(db.Snapshot()), model, {k}).refs + set x | x in ids :: Ref(model, k, x))
  {
    db.refs := set r | r in db.refs && !(r.model == model && r.key in {k});
    db.refs := db.refs + set x | x in ids :: Ref(model, k, x);
  }

  /** One document of the rewriting: source row, catalog row, asset references. */
  method ApplyDocument(db: Database, v: Table, model: string, g: Group, clean: Cleaner, now: int)
    requires model in db.profiles && Member(v, g.first, g.key)
    modifies db
    ensures db.Snapshot() == ApplyGroup(old(db.Snapshot()), v, model, g, clean, now)
  {
    ghost var before := db.Snapshot();
    var doc := ReadDocument(db, v, model, g, clean);
    if doc.key !in db.sources {
      db.sources := db.sources[doc.key := Source(doc.path, doc.root, doc.kind, doc.hash.Or(""))];
    }
    assert db.Snapshot() == InsertSource(before, doc, true);
    db.PublishMetadata(model, doc, true, now);
    ReplaceRefs(db, model, g.key, AssetIds(v, g.key));
  }

  lemma ApplyOneMore(d: Db, v: Table, model: string, groups: seq<Group>, i: nat, clean: Cleaner, now: int)
    requires model in d.profiles && Members(v, groups) && i < |groups|
    ensures ApplyGroups(d, v, model, groups[..i + 1], clean, now)
         == ApplyGroup(ApplyGroups(d, v, model, groups[..i], clean, now), v, model, groups[i], clean, now)
  {
    assert groups[..i + 1][..i] == groups[..i];
  }

  method ApplyDocuments(db: Database, v: Table, model: string, groups: seq<Group>, clean: Cleaner, now: int)
    requires model in db.profiles && Members(v, groups)
    modifies db
    ensures model in db.profiles && db.Snapshot() == ApplyGroups(old(db.Snapshot()), v, model, groups, clean, now)
  {
    ghost var d := db.Snapshot();
    var i := 0;
    while i < |groups|
      invariant i <= |groups| && model in db.profiles
      invariant Members(v, groups[..i]) && db.Snapshot() == ApplyGroups(d, v, model, groups[..i], clean, now)
    {
      ApplyOneMore(d, v, model, groups, i, clean, now);
      ApplyDocument(db, v, model, groups[i], clean, now);
      i := i + 1;
    }
    assert groups[..i] == groups;
  }

  /** One profile: write recovered payloads back, rewrite its documents, drop stale rows. */
  method RewriteProfile(db: Database, model: string, plan: Plan, clean: Cleaner, now: int)
    requires model in db.profiles && PlanFor(db.Snapshot(), model, plan)
    modifies db
    ensures db.Snapshot() == ReconcileProfile(old(db.Snapshot()), model, plan, clean, now)
  {
    var t := db.profiles[model].table;
    var v := View(db.sources, t);
    db.SetTable(model, Rebuilt(db.sources, t));
    ApplyDocuments(db, v, model, plan.groups, clean, now);
    DropStale(db, model, plan.stale);
  }

  method DropStaleRow(db: Database, model: string, k: DocKey)
    requires model in db.profiles
    modifies db
    ensures db.Snapshot() == DropRow(old(db.Snapshot()), model, k)
  {
    db.SetCatalog(model, db.profiles[model].catalog - {k});
    db.refs := set r | r in db.refs && !(r.model == model && r.key in {k});
    db.BumpRevision(ScopeOf(model, k));
  }

  method DropStale(db: Database, model: string, stale: seq<DocKey>)
    requires model in db.profiles
    modifies db
    ensures db.Snapshot() == DropRows(old(db.Snapshot()), model, stale)
  {
    ghost var e := db.Snapshot();
    var i := 0;
    while i < |stale|
      invariant i <= |stale| && model in db.profiles
      invariant db.Snapshot() == DropRows(e, model, stale[..i])
    {
      assert stale[..i + 1][..i] == stale[..i];
      DropStaleRow(db, model, stale[i]);
      i := i + 1;
    }
    assert stale[..i] == stale;
  }

  /** The checks of one profile, and the plan to rewrite it by if they all pass. */
  method Examine(db: Database, model: string) returns (ok: bool, plan: Plan)
    requires model in db.profiles
    ensures ok <==> Certifiable(db.Snapshot(), model)
    ensures ok ==> PlanFor(db.Snapshot(), model, plan)
  {
    var t := db.profiles[model].table;
    var v := View(db.sources, t);
    var ids := InSomeOrder(v.Keys);
    var groups, errors := AnalyzeChunks(v, ids);
    var stale := InSomeOrder(Stale(db.profiles[model].catalog, v));
    plan := Plan(groups, stale);
    ok := errors == 0 && forall k :: k in GroupKeys(v) ==> k.workspace in db.workspaces && AssetsPresent(db.Snapshot(), v, k);
  }

  /** One profile of the registry, checked and rewritten in place. */
  method CertifyInPlace(db: Database, model: string, clean: Cleaner, now: int) returns (ok: bool, plan: Plan)
    requires model in db.profiles
    modifies db
    ensures ok ==> CertifyProfile(old(db.Snapshot()), model, plan, clean, now) == Some(db.Snapshot())
    ensures !ok ==> db.Snapshot() == old(db.Snapshot()) && Refused(db.Snapshot(), model)
  {
    plan := Plan([], []);
    if !db.profiles[model].provisioned {
      return db.profiles[model].status != Ready, plan;
    }
    ok, plan := Examine(db, model);
    if ok {
      RewriteProfile(db, model, plan, clean, now);
    }
  }

  /** A profile that ends the certification: ready but not provisioned, or with errors. */
  ghost predicate Refused(db: Db, model: string) {
    model in db.profiles
    && (if db.profiles[model].provisioned then !Certifiable(db, model) else db.profiles[model].status == Ready)
  }

  lemma {:induction false} CertifyKeepsRegistry(db: Db, work: seq<(string, Plan)>, clean: Cleaner, now: int)
    ensures var r := CertifyProfiles(db, work, clean, now);
            r.Some? ==> r.value.profiles.Keys == db.profiles.Keys
  {
    if work != [] && CertifyProfiles(db, work, clean, now).Some? {
      var n := |work| - 1;
      CertifyKeepsRegistry(db, work[..n], clean, now);
      var d := CertifyProfiles(db, work[..n], clean, now).value;
      if d.profiles[work[n].0].provisioned {
        ReconciledProfile(d, work[n].0, work[n].1, clean, now);
      }
    }
  }

  lemma WorkOfNames(work: seq<(string, Plan)>, names: seq<string>, all: set<string>)
    requires |work| == |names| && forall j :: 0 <= j < |names| ==> work[j].0 == names[j]
    requires Enumerates(names, all)
    ensures WorkNames(work) == all
  {
    forall n ensures n in WorkNames(work) <==> n in names {
      if n in names {
        var j :| 0 <= j < |names| && names[j] == n;
        assert work[j].0 == n && work[j] in work;
      }
    }
    assert forall n :: n in names <==> n in (set x | x in names);
  }

  /** `reconcile --apply`.  Readiness is withdrawn first, in a commit of its own; a failed
      certification leaves everything else as it was. */
  method ReconcileCatalog(db: Database, names: seq<string>, clean: Cleaner, now: int)
    returns (certified: bool, ghost work: seq<(string, Plan)>, ghost failed: string)
    requires Enumerates(names, db.profiles.Keys)
    modifies db
    ensures var start := old(db.Snapshot()).(ready := false);
            if certified then db.ready && db.Snapshot() == Certify(start, work, clean, now)
            else db.Snapshot() == start && CertifyProfiles(start, work, clean, now).Some?
                 && Refused(CertifyProfiles(start, work, clean, now).value, failed)
  {
    db.ready := false;
    var start := db.Snapshot();
    work, failed := [], "";
    var i := 0;
    while i < |names|
      invariant i <= |names| && |work| == i
      invariant forall j :: 0 <= j < i ==> work[j].0 == names[j]
      invariant CertifyProfiles(start, work, clean, now) == Some(db.Snapshot())
    {
      assert names[i] in (set n | n in names);
      CertifyKeepsRegistry(start, work, clean, now);
      failed := names[i];
      var ok, plan := CertifyInPlace(db, names[i], clean, now);
      if !ok {
        db.Restore(start);
        return false, work, failed;
      }
      assert (work + [(names[i], plan)])[..i] == work;
      work := work + [(names[i], plan)];
      i := i + 1;
    }
    WorkOfNames(work, names, start.profiles.Keys);
    db.ready := true;
    certified := true;
  }
}
