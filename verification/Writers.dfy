/** The programs of the writers — ingestion, cleanup, warming, reconciliation — and that every
    one of them keeps the discipline of locks and rows. */
module Writers {
  import opened Text
  import opened Store
  import opened Protocol
  import opened Deadlock
  import opened Isolation

  // ---- Programs ------------------------------------------------------------------------

  /** One publication: skipped by its guards, or written, with pruning if the catalog is ready. */
  datatype Publication =
    | Skipped(model: string, key: DocKey)
    | Written(model: string, key: DocKey, assets: seq<string>, prune: bool)

  function AssetSteps(m: string, k: DocKey, assets: seq<string>): seq<Action> {
    if assets == [] then []
    else [Exec(InsertAsset(k, assets[0])), Exec(InsertRef(k, m, assets[0]))] + AssetSteps(m, k, assets[1..])
  }

  function PruneSteps(k: DocKey): seq<Action> {
    [Exec(PruneAssets(k)), Exec(PruneSource(k))]
  }

  /** `_replace_on_connection`. */
  function PublicationSteps(pub: Publication): seq<Action> {
    var m, k := pub.model, pub.key;
    [LockTx(ProfileLock(m)), LockTx(DocLock(k))]
    + (match pub
       case Skipped(_, _) => []
       case Written(_, _, assets, prune) =>
         [Exec(InsertSource(k)), Exec(InsertPub(k, m)), Exec(DeleteRefs(k, m))]
         + AssetSteps(m, k, assets) + (if prune then PruneSteps(k) else []))
    + [EndTx]
  }

  function LockDocs(keys: seq<DocKey>): seq<Action> {
    if keys == [] then [] else LockDocs(keys[..|keys| - 1]) + [LockTx(DocLock(keys[|keys| - 1]))]
  }

  function DeletePubs(m: string, keys: seq<DocKey>): seq<Action> {
    if keys == [] then [] else [Exec(DeletePub(keys[0], m))] + DeletePubs(m, keys[1..])
  }

  function PruneDocs(keys: seq<DocKey>): seq<Action> {
    if keys == [] then [] else PruneSteps(keys[0]) + PruneDocs(keys[1..])
  }

  function LockProfiles(names: seq<string>): seq<Action> {
    if names == [] then [] else LockProfiles(names[..|names| - 1]) + [LockSession(ProfileLock(names[|names| - 1]))]
  }

  function UnlockProfiles(names: seq<string>): seq<Action> {
    if names == [] then []
    else [UnlockSession(ProfileLock(names[|names| - 1]))] + UnlockProfiles(names[..|names| - 1])
  }

  function AllPublications(pubs: seq<Publication>): seq<Action> {
    if pubs == [] then [] else PublicationSteps(pubs[0]) + AllPublications(pubs[1..])
  }

  /** A document certified with existing assets, or a stale publication dropped. */
  datatype Repair = Certified(model: string, key: DocKey, assets: seq<string>) | Dropped(model: string, key: DocKey)

  function CheckedAssetSteps(m: string, k: DocKey, assets: seq<string>): seq<Action> {
    if assets == [] then []
    else [Exec(CheckAsset(k, assets[0])), Exec(InsertRef(k, m, assets[0]))] + CheckedAssetSteps(m, k, assets[1..])
  }

  function RepairSteps(r: Repair): seq<Action> {
    match r
    case Dropped(m, k) => [Exec(DeletePub(k, m))]
    case Certified(m, k, assets) =>
      [Exec(InsertSource(k)), Exec(InsertPub(k, m)), Exec(DeleteRefs(k, m))] + CheckedAssetSteps(m, k, assets)
  }

  function AllRepairs(repairs: seq<Repair>): seq<Action> {
    if repairs == [] then [] else RepairSteps(repairs[0]) + AllRepairs(repairs[1..])
  }

  datatype Job =
    | Ingest(pub: Publication)
    | Cleanup(model: string, keys: seq<DocKey>, order: seq<DocKey>, prune: bool)
    | Warm(profiles: seq<string>, pubs: seq<Publication>)
    | Reconcile(profiles: seq<string>, repairs: seq<Repair>)

  function Program(job: Job): seq<Action> {
    match job
    case Ingest(pub) => [TakeConn] + PublicationSteps(pub) + [GiveConn]
    case Cleanup(m, keys, order, prune) =>
      [TakeConn, LockTx(ProfileLock(m))] + LockDocs(keys) + DeletePubs(m, order)
      + (if prune then PruneDocs(order) else []) + [EndTx, GiveConn]
    case Warm(profiles, pubs) =>
      [TakeConn] + LockProfiles(profiles) + AllPublications(pubs) + UnlockProfiles(profiles) + [GiveConn]
    case Reconcile(profiles, repairs) =>
      [TakeConn] + LockProfiles(profiles) + AllRepairs(repairs) + [EndTx] + UnlockProfiles(profiles) + [GiveConn]
  }

  predicate SortedNames(names: seq<string>) {
    forall i, j :: 0 <= i < j < |names| ==> TextLess(names[i], names[j])
  }

  predicate SortedKeys(keys: seq<DocKey>) {
    forall i, j :: 0 <= i < j < |keys| ==> KeyLess(keys[i], keys[j])
  }

  /** Profiles are registered; names and documents come sorted and without repetition; a warm
      publishes only into a profile it has locked; reconciliation locks the whole registry. */
  predicate Proper(registry: set<string>, job: Job) {
    match job
    case Ingest(pub) => pub.model in registry
    case Cleanup(m, keys, order, _) => m in registry && SortedKeys(keys) && forall k :: k in order ==> k in keys
    case Warm(profiles, pubs) =>
      SortedNames(profiles) && forall i :: 0 <= i < |pubs| ==> pubs[i].model in profiles && pubs[i].model in registry
    case Reconcile(profiles, _) => SortedNames(profiles) && (set n | n in profiles) == registry
  }

  // ---- Discipline, piece by piece ---------------------------------------------------------

  /** A piece of program is allowed step by step, and leads from one ownership to another. */
  predicate Leads(registry: set<string>, own: Own, steps: seq<Action>, end: Own)
    decreases |steps|
  {
    if steps == [] then own == end
    else Allowed(registry, own, steps[0]) && Leads(registry, Apply(own, steps[0]), steps[1..], end)
  }

  lemma {:induction false} LeadsOn(registry: set<string>, own: Own, a: seq<Action>, mid: Own, b: seq<Action>, end: Own)
    requires Leads(registry, own, a, mid) && Leads(registry, mid, b, end)
    ensures Leads(registry, own, a + b, end)
    decreases |a|
  {
    hide Allowed, Apply;
    if a == [] {
      assert a + b == b;
    } else {
      assert (a + b)[0] == a[0] && (a + b)[1..] == a[1..] + b;
      LeadsOn(registry, Apply(own, a[0]), a[1..], mid, b, end);
    }
  }

  lemma {:induction false} LeadsHome(registry: set<string>, own: Own, steps: seq<Action>)
    requires Leads(registry, own, steps, NOTHING)
    ensures Disciplined(registry, own, steps)
    decreases |steps|
  {
    hide Allowed, Apply;
    if steps != [] {
      LeadsHome(registry, Apply(own, steps[0]), steps[1..]);
    }
  }

  /** A connection with some session locks and no open transaction. */
  function Idle(session: set<Lock>): Own {
    Own(true, session, {}, false, {})
  }

  predicate ProfilesOnly(session: set<Lock>) {
    forall l :: l in session ==> l.ProfileLock?
  }

  function AssetFacts(k: DocKey, assets: seq<string>): set<Row> {
    set a | a in assets :: AssetRow(k, a)
  }

  lemma {:induction false} AssetStepsLead(registry: set<string>, own: Own, m: string, k: DocKey, assets: seq<string>)
    requires own.conn && own.open && Covers(registry, own, k) && SourceRow(k) in own.facts && PubRow(k, m) in own.facts
    ensures Leads(registry, own, AssetSteps(m, k, assets), own.(facts := own.facts + AssetFacts(k, assets)))
    ensures Leads(registry, own, CheckedAssetSteps(m, k, assets), own.(facts := own.facts + AssetFacts(k, assets)))
    decreases |assets|
  {
    if assets == [] {
      assert own.facts + AssetFacts(k, assets) == own.facts;
    } else {
      var next := own.(facts := own.facts + {AssetRow(k, assets[0])});
      assert Covers(registry, next, k);
      AssetStepsLead(registry, next, m, k, assets[1..]);
      assert next.facts + AssetFacts(k, assets[1..]) == own.facts + AssetFacts(k, assets);
      var end := own.(facts := own.facts + AssetFacts(k, assets));
      var one, two := Exec(InsertAsset(k, assets[0])), Exec(InsertRef(k, m, assets[0]));
      TwoSteps(registry, own, one, two, next);
      LeadsOn(registry, own, [one, two], next, AssetSteps(m, k, assets[1..]), end);
      var check := Exec(CheckAsset(k, assets[0]));
      TwoSteps(registry, own, check, two, next);
      LeadsOn(registry, own, [check, two], next, CheckedAssetSteps(m, k, assets[1..]), end);
    }
  }

  lemma TwoSteps(registry: set<string>, own: Own, a: Action, b: Action, end: Own)
    requires Allowed(registry, own, a) && Allowed(registry, Apply(own, a), b) && Apply(Apply(own, a), b) == end
    ensures Leads(registry, own, [a, b], end)
  {
    assert [a, b][1..] == [b];
    assert [b][1..] == [];
  }

  lemma OneStep(registry: set<string>, own: Own, a: Action)
    requires Allowed(registry, own, a)
    ensures Leads(registry, own, [a], Apply(own, a))
  {
    assert [a][1..] == [];
  }

  /** The rows of a publication under cover, up to its references. */
  lemma RowsLead(registry: set<string>, own: Own, m: string, k: DocKey, assets: seq<string>)
    requires own.conn && own.open && Covers(registry, own, k)
    ensures var rows := [Exec(InsertSource(k)), Exec(InsertPub(k, m)), Exec(DeleteRefs(k, m))];
            var end := own.(facts := own.facts + {SourceRow(k), PubRow(k, m)} + AssetFacts(k, assets));
            && Leads(registry, own, rows + AssetSteps(m, k, assets), end)
            && Leads(registry, own, rows + CheckedAssetSteps(m, k, assets), end)
  {
    var rows := [Exec(InsertSource(k)), Exec(InsertPub(k, m)), Exec(DeleteRefs(k, m))];
    var one := own.(facts := own.facts + {SourceRow(k)});
    var mid := own.(facts := own.facts + {SourceRow(k), PubRow(k, m)});
    var end := mid.(facts := mid.facts + AssetFacts(k, assets));
    assert Covers(registry, one, k) && Covers(registry, mid, k);
    OneStep(registry, own, Exec(InsertSource(k)));
    assert one.facts + {PubRow(k, m)} == mid.facts;
    TwoSteps(registry, one, Exec(InsertPub(k, m)), Exec(DeleteRefs(k, m)), mid);
    LeadsOn(registry, own, [Exec(InsertSource(k))], one, [Exec(InsertPub(k, m)), Exec(DeleteRefs(k, m))], mid);
    assert rows == [Exec(InsertSource(k))] + [Exec(InsertPub(k, m)), Exec(DeleteRefs(k, m))];
    AssetStepsLead(registry, mid, m, k, assets);
    LeadsOn(registry, own, rows, mid, AssetSteps(m, k, assets), end);
    LeadsOn(registry, own, rows, mid, CheckedAssetSteps(m, k, assets), end);
  }

  /** Steps that only forget facts: deletions and prunings. */
  lemma PruneLeads(registry: set<string>, own: Own, k: DocKey) returns (end: Own)
    requires own.conn && own.open && Covers(registry, own, k)
    ensures Leads(registry, own, PruneSteps(k), end) && end == own.(facts := end.facts)
  {
    var mid := Apply(own, Exec(PruneAssets(k)));
    assert Covers(registry, mid, k);
    end := Apply(mid, Exec(PruneSource(k)));
    TwoSteps(registry, own, Exec(PruneAssets(k)), Exec(PruneSource(k)), end);
  }

  lemma CommitLeads(registry: set<string>, own: Own)
    requires own.conn
    ensures Leads(registry, own, [EndTx], Idle(own.session))
  {
    OneStep(registry, own, EndTx);
  }

  /** A publication takes its two locks, under whatever profile locks it already has, writes
      under their cover and gives them back. */
  lemma PublicationLeads(registry: set<string>, session: set<Lock>, pub: Publication)
    requires pub.model in registry && ProfilesOnly(session) && (session == {} || ProfileLock(pub.model) in session)
    ensures Leads(registry, Idle(session), PublicationSteps(pub), Idle(session))
  {
    var m, k := pub.model, pub.key;
    var locks := [LockTx(ProfileLock(m)), LockTx(DocLock(k))];
    var locked := Own(true, session, {ProfileLock(m), DocLock(k)}, true, {});
    var first := Own(true, session, {ProfileLock(m)}, true, {});
    assert ProfileLock(m) in Held(first);
    TwoSteps(registry, Idle(session), locks[0], locks[1], locked);
    assert ProfileLock(m) in Held(locked) && Covers(registry, locked, k);
    var body, end := BodyLeads(registry, locked, pub);
    LeadsOn(registry, Idle(session), locks, locked, body, end);
    CommitLeads(registry, end);
    LeadsOn(registry, Idle(session), locks + body, end, [EndTx], Idle(session));
    assert locks + body + [EndTx] == PublicationSteps(pub);
  }

  lemma BodyLeads(registry: set<string>, own: Own, pub: Publication) returns (body: seq<Action>, end: Own)
    requires own.conn && own.open && Covers(registry, own, pub.key)
    ensures [LockTx(ProfileLock(pub.model)), LockTx(DocLock(pub.key))] + body + [EndTx] == PublicationSteps(pub)
    ensures Leads(registry, own, body, end) && end == own.(facts := end.facts)
  {
    match pub
    case Skipped(_, _) =>
      body, end := [], own;
    case Written(m, k, assets, prune) =>
      var rows := [Exec(InsertSource(k)), Exec(InsertPub(k, m)), Exec(DeleteRefs(k, m))] + AssetSteps(m, k, assets);
      RowsLead(registry, own, m, k, assets);
      end := own.(facts := own.facts + {SourceRow(k), PubRow(k, m)} + AssetFacts(k, assets));
      body := rows;
      if prune {
        var mid := end;
        assert Covers(registry, mid, k);
        end := PruneLeads(registry, mid, k);
        LeadsOn(registry, own, rows, mid, PruneSteps(k), end);
        body := rows + PruneSteps(k);
      }
  }

  lemma {:induction false} AllPublicationsLead(registry: set<string>, session: set<Lock>, pubs: seq<Publication>)
    requires ProfilesOnly(session)
    requires forall i :: 0 <= i < |pubs| ==> pubs[i].model in registry && ProfileLock(pubs[i].model) in session
    ensures Leads(registry, Idle(session), AllPublications(pubs), Idle(session))
    decreases |pubs|
  {
    if pubs != [] {
      PublicationLeads(registry, session, pubs[0]);
      AllPublicationsLead(registry, session, pubs[1..]);
      LeadsOn(registry, Idle(session), PublicationSteps(pubs[0]), Idle(session), AllPublications(pubs[1..]), Idle(session));
    }
  }

  function ProfileLocks(names: seq<string>): set<Lock> {
    set n | n in names :: ProfileLock(n)
  }

  lemma OneProfile(registry: set<string>, names: seq<string>)
    requires SortedNames(names) && names != []
    ensures var n := |names| - 1;
            var l := ProfileLock(names[n]);
            && SortedNames(names[..n])
            && Leads(registry, Idle(ProfileLocks(names[..n])), [LockSession(l)], Idle(ProfileLocks(names)))
            && Leads(registry, Idle(ProfileLocks(names)), [UnlockSession(l)], Idle(ProfileLocks(names[..n])))
  {
    var n := |names| - 1;
    var l := ProfileLock(names[n]);
    assert names == names[..n] + [names[n]];
    forall h | h in ProfileLocks(names[..n]) ensures Less(h, l) {
      var i :| 0 <= i < n && h == ProfileLock(names[i]);
    }
    LessIrreflexive(l);
    assert ProfileLocks(names) == ProfileLocks(names[..n]) + {l};
    assert ProfileLocks(names) - {l} == ProfileLocks(names[..n]);
    OneStep(registry, Idle(ProfileLocks(names[..n])), LockSession(l));
    OneStep(registry, Idle(ProfileLocks(names)), UnlockSession(l));
  }

  lemma NoProfiles()
    ensures ProfileLocks([]) == {}
  {
  }

  lemma {:induction false} LockProfilesLead(registry: set<string>, names: seq<string>)
    requires SortedNames(names)
    ensures Leads(registry, Idle({}), LockProfiles(names), Idle(ProfileLocks(names)))
    ensures Leads(registry, Idle(ProfileLocks(names)), UnlockProfiles(names), Idle({}))
    decreases |names|
  {
    hide SortedNames, Allowed, Apply, Idle, ProfileLocks;
    if names == [] {
      NoProfiles();
    } else {
      var n := |names| - 1;
      var before, after := Idle(ProfileLocks(names[..n])), Idle(ProfileLocks(names));
      var l := ProfileLock(names[n]);
      OneProfile(registry, names);
      LockProfilesLead(registry, names[..n]);
      LeadsOn(registry, Idle({}), LockProfiles(names[..n]), before, [LockSession(l)], after);
      LeadsOn(registry, after, [UnlockSession(l)], before, UnlockProfiles(names[..n]), Idle({}));
    }
  }

  function DocLocks(keys: seq<DocKey>): set<Lock> {
    set k | k in keys :: DocLock(k)
  }

  function Cleaning(m: string, keys: seq<DocKey>): Own {
    Own(true, {}, {ProfileLock(m)} + DocLocks(keys), true, {})
  }

  lemma {:induction false} LockDocsLead(registry: set<string>, m: string, keys: seq<DocKey>)
    requires m in registry && SortedKeys(keys)
    ensures Leads(registry, Cleaning(m, []), LockDocs(keys), Cleaning(m, keys))
    decreases |keys|
  {
    if keys == [] {
    } else {
      var n := |keys| - 1;
      var l := DocLock(keys[n]);
      LockDocsLead(registry, m, keys[..n]);
      assert keys == keys[..n] + [keys[n]];
      forall h | h in DocLocks(keys[..n]) ensures Less(h, l) {
        var i :| 0 <= i < n && h == DocLock(keys[i]);
      }
      assert DocLocks(keys) == DocLocks(keys[..n]) + {l};
      assert ProfileLock(m) in Held(Cleaning(m, keys[..n]));
      OneStep(registry, Cleaning(m, keys[..n]), LockTx(l));
      assert Apply(Cleaning(m, keys[..n]), LockTx(l)) == Cleaning(m, keys);
      LeadsOn(registry, Cleaning(m, []), LockDocs(keys[..n]), Cleaning(m, keys[..n]), [LockTx(l)], Cleaning(m, keys));
    }
  }

  predicate CoversAll(registry: set<string>, own: Own, keys: seq<DocKey>) {
    own.conn && own.open && forall i :: 0 <= i < |keys| ==> Covers(registry, own, keys[i])
  }

  lemma {:induction false} DeletePubsLead(registry: set<string>, own: Own, m: string, keys: seq<DocKey>)
    requires CoversAll(registry, own, keys) && own.facts == {}
    ensures Leads(registry, own, DeletePubs(m, keys), own)
    decreases |keys|
  {
    if keys != [] {
      OneStep(registry, own, Exec(DeletePub(keys[0], m)));
      assert Apply(own, Exec(DeletePub(keys[0], m))) == own;
      DeletePubsLead(registry, own, m, keys[1..]);
      LeadsOn(registry, own, [Exec(DeletePub(keys[0], m))], own, DeletePubs(m, keys[1..]), own);
    }
  }

  lemma {:induction false} PruneDocsLead(registry: set<string>, own: Own, keys: seq<DocKey>) returns (end: Own)
    requires CoversAll(registry, own, keys)
    ensures Leads(registry, own, PruneDocs(keys), end) && end == own.(facts := end.facts)
    decreases |keys|
  {
    if keys == [] {
      end := own;
    } else {
      var mid := PruneLeads(registry, own, keys[0]);
      assert CoversAll(registry, mid, keys[1..]);
      end := PruneDocsLead(registry, mid, keys[1..]);
      LeadsOn(registry, own, PruneSteps(keys[0]), mid, PruneDocs(keys[1..]), end);
    }
  }

  lemma RepairLeads(registry: set<string>, own: Own, r: Repair) returns (end: Own)
    requires own.conn && own.open && (forall k :: Covers(registry, own, k))
    ensures Leads(registry, own, RepairSteps(r), end) && end == own.(facts := end.facts)
  {
    match r
    case Dropped(m, k) =>
      end := Apply(own, Exec(DeletePub(k, m)));
      OneStep(registry, own, Exec(DeletePub(k, m)));
    case Certified(m, k, assets) =>
      RowsLead(registry, own, m, k, assets);
      end := own.(facts := own.facts + {SourceRow(k), PubRow(k, m)} + AssetFacts(k, assets));
  }

  lemma {:induction false} RepairsLead(registry: set<string>, own: Own, repairs: seq<Repair>) returns (end: Own)
    requires own.conn && (forall m :: m in registry ==> ProfileLock(m) in own.session) && own.tx == {}
    ensures Leads(registry, own, AllRepairs(repairs), end) && end == own.(facts := end.facts, open := end.open)
    decreases |repairs|
  {
    if repairs == [] {
      end := own;
    } else {
      var begun := own.(open := true);
      var mid := RepairLeads(registry, begun, repairs[0]);
      OpeningIsFree(registry, own, RepairSteps(repairs[0]), mid);
      end := RepairsLead(registry, mid, repairs[1..]);
      LeadsOn(registry, own, RepairSteps(repairs[0]), mid, AllRepairs(repairs[1..]), end);
    }
  }

  /** The first row statement opens the transaction. */
  lemma OpeningIsFree(registry: set<string>, own: Own, steps: seq<Action>, end: Own)
    requires steps != [] && steps[0].Exec? && Leads(registry, own.(open := true), steps, end)
    ensures Leads(registry, own, steps, end)
  {
    assert Covers(registry, own.(open := true), steps[0].st.key) == Covers(registry, own, steps[0].st.key);
    assert Apply(own.(open := true), steps[0]) == Apply(own, steps[0]);
  }

  // ---- Every writer is disciplined --------------------------------------------------------------

  lemma FramedLeads(registry: set<string>, steps: seq<Action>)
    requires Leads(registry, Idle({}), steps, Idle({}))
    ensures Disciplined(registry, NOTHING, [TakeConn] + steps + [GiveConn])
  {
    OneStep(registry, NOTHING, TakeConn);
    LeadsOn(registry, NOTHING, [TakeConn], Idle({}), steps, Idle({}));
    OneStep(registry, Idle({}), GiveConn);
    LeadsOn(registry, NOTHING, [TakeConn] + steps, Idle({}), [GiveConn], NOTHING);
    LeadsHome(registry, NOTHING, [TakeConn] + steps + [GiveConn]);
  }

  lemma CleaningCovers(registry: set<string>, m: string, keys: seq<DocKey>, order: seq<DocKey>)
    requires m in registry && forall k :: k in order ==> k in keys
    ensures CoversAll(registry, Cleaning(m, keys), order)
  {
    var own := Cleaning(m, keys);
    forall i | 0 <= i < |order| ensures Covers(registry, own, order[i]) {
      assert order[i] in order;
      assert DocLock(order[i]) in own.tx && ProfileLock(m) in Held(own);
    }
  }

  lemma NoSteps(registry: set<string>, own: Own)
    ensures Leads(registry, own, [], own)
  {
  }

  lemma CleanupProgram(m: string, keys: seq<DocKey>, order: seq<DocKey>, prune: bool)
    ensures var prunes := if prune then PruneDocs(order) else [];
            Program(Cleanup(m, keys, order, prune))
              == [TakeConn] + ([LockTx(ProfileLock(m))] + LockDocs(keys) + DeletePubs(m, order) + prunes + [EndTx]) + [GiveConn]
  {
    hide LockDocs, DeletePubs, PruneDocs;
  }

  lemma CleanupLeads(registry: set<string>, m: string, keys: seq<DocKey>, order: seq<DocKey>, prune: bool) returns (steps: seq<Action>)
    requires m in registry && SortedKeys(keys) && forall k :: k in order ==> k in keys
    ensures Leads(registry, Idle({}), steps, Idle({}))
    ensures Program(Cleanup(m, keys, order, prune)) == [TakeConn] + steps + [GiveConn]
  {
    hide Leads, LockDocs, DeletePubs, PruneDocs, Covers, Program;
    var own := Cleaning(m, keys);
    var deletes := DeletePubs(m, order);
    var prunes := if prune then PruneDocs(order) else [];
    var head := [LockTx(ProfileLock(m))] + LockDocs(keys);
    OneStep(registry, Idle({}), LockTx(ProfileLock(m)));
    assert DocLocks([]) == {} && Apply(Idle({}), LockTx(ProfileLock(m))) == Cleaning(m, []);
    LockDocsLead(registry, m, keys);
    LeadsOn(registry, Idle({}), [LockTx(ProfileLock(m))], Cleaning(m, []), LockDocs(keys), own);
    CleaningCovers(registry, m, keys, order);
    DeletePubsLead(registry, own, m, order);
    LeadsOn(registry, Idle({}), head, own, deletes, own);
    var end := own;
    NoSteps(registry, own);
    if prune {
      end := PruneDocsLead(registry, own, order);
    }
    LeadsOn(registry, Idle({}), head + deletes, own, prunes, end);
    CommitLeads(registry, end);
    LeadsOn(registry, Idle({}), head + deletes + prunes, end, [EndTx], Idle({}));
    steps := head + deletes + prunes + [EndTx];
    CleanupProgram(m, keys, order, prune);
  }

  lemma WarmLeads(registry: set<string>, profiles: seq<string>, pubs: seq<Publication>) returns (steps: seq<Action>)
    requires Proper(registry, Warm(profiles, pubs))
    ensures Leads(registry, Idle({}), steps, Idle({}))
    ensures Program(Warm(profiles, pubs)) == [TakeConn] + steps + [GiveConn]
  {
    var session := ProfileLocks(profiles);
    LockProfilesLead(registry, profiles);
    AllPublicationsLead(registry, session, pubs);
    LeadsOn(registry, Idle({}), LockProfiles(profiles), Idle(session), AllPublications(pubs), Idle(session));
    LeadsOn(registry, Idle({}), LockProfiles(profiles) + AllPublications(pubs), Idle(session), UnlockProfiles(profiles), Idle({}));
    steps := LockProfiles(profiles) + AllPublications(pubs) + UnlockProfiles(profiles);
    assert Program(Warm(profiles, pubs)) == [TakeConn] + steps + [GiveConn];
  }

  lemma ReconcileLeads(registry: set<string>, profiles: seq<string>, repairs: seq<Repair>) returns (steps: seq<Action>)
    requires Proper(registry, Reconcile(profiles, repairs))
    ensures Leads(registry, Idle({}), steps, Idle({}))
    ensures Program(Reconcile(profiles, repairs)) == [TakeConn] + steps + [GiveConn]
  {
    hide Leads, LockProfiles, UnlockProfiles, AllRepairs;
    var session := ProfileLocks(profiles);
    LockProfilesLead(registry, profiles);
    forall m | m in registry ensures ProfileLock(m) in session {
      assert m in (set n | n in profiles);
    }
    var end := RepairsLead(registry, Idle(session), repairs);
    LeadsOn(registry, Idle({}), LockProfiles(profiles), Idle(session), AllRepairs(repairs), end);
    CommitLeads(registry, end);
    LeadsOn(registry, Idle({}), LockProfiles(profiles) + AllRepairs(repairs), end, [EndTx], Idle(session));
    LeadsOn(registry, Idle({}), LockProfiles(profiles) + AllRepairs(repairs) + [EndTx], Idle(session), UnlockProfiles(profiles), Idle({}));
    steps := LockProfiles(profiles) + AllRepairs(repairs) + [EndTx] + UnlockProfiles(profiles);
    assert Program(Reconcile(profiles, repairs)) == [TakeConn] + steps + [GiveConn];
  }

  lemma JobsAreDisciplined(registry: set<string>, job: Job)
    requires Proper(registry, job)
    ensures Disciplined(registry, NOTHING, Program(job))
  {
    var steps;
    match job
    case Ingest(pub) =>
      PublicationLeads(registry, {}, pub);
      FramedLeads(registry, PublicationSteps(pub));
    case Cleanup(m, keys, order, prune) =>
      steps := CleanupLeads(registry, m, keys, order, prune);
      FramedLeads(registry, steps);
    case Warm(profiles, pubs) =>
      steps := WarmLeads(registry, profiles, pubs);
      FramedLeads(registry, steps);
    case Reconcile(profiles, repairs) =>
      steps := ReconcileLeads(registry, profiles, repairs);
      FramedLeads(registry, steps);
  }

  // ---- Any number of writers ---------------------------------------------------------------------

  function Waiting(jobs: seq<Job>): (procs: seq<Process>)
    ensures |procs| == |jobs|
    ensures forall i :: 0 <= i < |jobs| ==> procs[i] == Process(NOTHING, Program(jobs[i]), {}, {})
  {
    if jobs == [] then [] else [Process(NOTHING, Program(jobs[0]), {}, {})] + Waiting(jobs[1..])
  }

  function Start(pool: nat, registry: set<string>, committed: set<Row>, jobs: seq<Job>): System {
    System(pool, registry, committed, Waiting(jobs))
  }

  lemma {:induction false} NoConnsYet(jobs: seq<Job>, n: nat)
    requires n <= |jobs|
    ensures Conns(Waiting(jobs), n) == 0
  {
    if n > 0 {
      NoConnsYet(jobs, n - 1);
    }
  }

  lemma StartIsIsolated(pool: nat, registry: set<string>, committed: set<Row>, jobs: seq<Job>)
    requires registry != {} && (forall k :: Good(committed, k))
    requires forall i :: 0 <= i < |jobs| ==> Proper(registry, jobs[i])
    ensures Isolated(Start(pool, registry, committed, jobs))
  {
    hide Program, Proper, Good;
    var s := Start(pool, registry, committed, jobs);
    NoConnsYet(jobs, |jobs|);
    forall p | 0 <= p < |jobs|
      ensures Disciplined(registry, s.procs[p].own, s.procs[p].rest)
      ensures Local(registry, s.procs[p].own, View(s, p), s.procs[p].ins + s.procs[p].del)
    {
      JobsAreDisciplined(registry, jobs[p]);
      FailedIsLocal(registry, View(s, p));
      assert s.procs[p].ins + s.procs[p].del == {};
    }
  }

  /** Any number of ingestions, cleanups, warms and reconciliations over any pool: after any
      interleaving of their steps and failures the committed rows are complete, and whoever
      is unfinished waits at most for a process that can go on. */
  lemma WritersAreSafeAndLive(pool: nat, registry: set<string>, committed: set<Row>, jobs: seq<Job>, moves: seq<Move>)
    requires pool > 0 && registry != {} && (forall k :: Good(committed, k))
    requires forall i :: 0 <= i < |jobs| ==> Proper(registry, jobs[i])
    requires CanRun(Start(pool, registry, committed, jobs), moves)
    ensures var s := After(Start(pool, registry, committed, jobs), moves);
            && (forall k :: Good(s.committed, k))
            && (forall p :: Unfinished(s, p) ==>
                  exists path :: Chain(s, path) && path[0] == p && Enabled(s, path[|path| - 1]))
  {
    var start := Start(pool, registry, committed, jobs);
    var s := After(start, moves);
    StartIsIsolated(pool, registry, committed, jobs);
    CommittedRowsAreComplete(start, moves);
    forall p: nat | Unfinished(s, p)
      ensures exists path :: Chain(s, path) && path[0] == p && Enabled(s, path[|path| - 1])
    {
      NeverDeadlocked(start, moves, p);
    }
  }
}
