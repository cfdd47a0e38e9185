/** The writers' programs down to their statements: each keeps the discipline of locks, and so
    every interleaving of any number of them is one of transactions. */
module SerialWriters {
  import opened Text
  import opened ChunkIdentity
  import opened Store
  import opened Reconcile
  import opened SharedRows
  import opened Cells
  import opened Statements
  import opened Rights
  import opened Interleaving
  import opened Transactions
  import P = Protocol
  import Runs
  import W = Writers

  // ---- Programs ------------------------------------------------------------------------------

  function Dos(stmts: seq<Stmt>): (acts: seq<Act>)
    ensures |acts| == |stmts| && forall i :: 0 <= i < |stmts| ==> acts[i] == Do(stmts[i])
  {
    seq(|stmts|, i requires 0 <= i < |stmts| => Do(stmts[i]))
  }

  /** One publication under the locks of its profile and its document. */
  function PublicationActs(m: string, k: DocKey, stmts: seq<Stmt>, step: Runs.Step): seq<Act> {
    [LockTx(P.ProfileLock(m)), LockTx(P.DocLock(k))] + Dos(stmts) + [Commit(step)]
  }

  function DocLocks(keys: seq<DocKey>): seq<Act> {
    if keys == [] then [] else DocLocks(keys[..|keys| - 1]) + [LockTx(P.DocLock(keys[|keys| - 1]))]
  }

  function SessionLocks(names: seq<string>): seq<Act> {
    if names == [] then [] else SessionLocks(names[..|names| - 1]) + [LockSession(P.ProfileLock(names[|names| - 1]))]
  }

  function SessionUnlocks(names: seq<string>): seq<Act> {
    if names == [] then [] else [UnlockSession(P.ProfileLock(names[|names| - 1]))] + SessionUnlocks(names[..|names| - 1])
  }

  // ---- One statement list under given locks -----------------------------------------------------

  /** A statement that works on one profile and on some documents. */
  ghost predicate About(owner: AssetOwner, st: Stmt, m: string, ks: set<DocKey>) {
    match st
    case PutSource(doc, _) => doc.key in ks
    case PutCatalog(n, k, _) => n == m && k in ks
    case RaiseRevision(scope) => scope.model == m
    case DropRefs(n, k) => k in ks
    case AddAsset(k, a) => k in ks && owner(a.id) == k
    case AddRef(r) => r.key in ks && owner(r.asset) == r.key
    case SeeReady(_) => true
    case PruneAssets(k) => k in ks
    case PruneSource(k) => k in ks
    case DropPublications(n, js) => n == m && js <= ks
    case PutReady(_) => false
    case SeeRegistry(_) => true
    case SeePlan(_, _, _) => false
    case WriteBack(_) => false
    case SeeDocument(_, _, _) => false
    case _ => st.model == m
  }

  ghost predicate AllAbout(owner: AssetOwner, stmts: seq<Stmt>, m: string, ks: set<DocKey>) {
    forall i :: 0 <= i < |stmts| ==> About(owner, stmts[i], m, ks)
  }

  lemma AboutBoth(owner: AssetOwner, a: seq<Stmt>, b: seq<Stmt>, m: string, ks: set<DocKey>)
    ensures AllAbout(owner, a + b, m, ks) <==> AllAbout(owner, a, m, ks) && AllAbout(owner, b, m, ks)
  {
    hide About;
    assert forall i :: 0 <= i < |a| ==> (a + b)[i] == a[i];
    assert forall i :: 0 <= i < |b| ==> (a + b)[|a| + i] == b[i];
  }

  lemma AboutIsPermitted(owner: AssetOwner, registry: set<string>, own: P.Own, st: Stmt, m: string, ks: set<DocKey>)
    requires About(owner, st, m, ks) && m in registry && HasProfile(own, m) && forall k :: k in ks ==> P.Covers(registry, own, k)
    ensures Permitted(owner, registry, own, st)
  {
    hide HasProfile, P.Covers;
  }

  lemma AllAboutIsPermitted(owner: AssetOwner, registry: set<string>, own: P.Own, stmts: seq<Stmt>, m: string, ks: set<DocKey>)
    requires AllAbout(owner, stmts, m, ks) && m in registry && HasProfile(own, m) && forall k :: k in ks ==> P.Covers(registry, own, k)
    ensures AllPermitted(owner, registry, own, stmts)
  {
    hide About, HasProfile, P.Covers, Permitted;
    forall i | 0 <= i < |stmts| ensures Permitted(owner, registry, own, stmts[i]) {
      AboutIsPermitted(owner, registry, own, stmts[i], m, ks);
    }
  }

  lemma {:induction false} ChunksAbout(owner: AssetOwner, m: string, items: seq<Item>, ks: set<DocKey>)
    ensures AllAbout(owner, PutChunks(m, items), m, ks)
  {
    if items != [] {
      var n := |items| - 1;
      ChunksAbout(owner, m, items[..n], ks);
      AboutBoth(owner, PutChunks(m, items[..n]), [PutChunk(m, items[n])], m, ks);
    }
  }

  lemma {:induction false} AssetsAbout(owner: AssetOwner, m: string, k: DocKey, assets: seq<AssetRecord>)
    requires Owned(owner, assets, k)
    ensures AllAbout(owner, AssetStmts(m, k, assets), m, {k})
  {
    if assets != [] {
      var n := |assets| - 1;
      AssetsAbout(owner, m, k, assets[..n]);
      AboutBoth(owner, AssetStmts(m, k, assets[..n]), [AddAsset(k, assets[n]), AddRef(Ref(m, k, assets[n].id))], m, {k});
    }
  }

  lemma WrittenAbout(owner: AssetOwner, m: string, doc: Document, items: seq<Item>, assets: seq<AssetRecord>, preserve: bool, now: int, r: Reads)
    requires Owned(owner, assets, doc.key)
    ensures AllAbout(owner, WrittenStmts(m, doc, items, assets, preserve, now, r), m, {doc.key})
  {
    hide PutChunks, AssetStmts;
    var k, time := doc.key, if preserve then doc.time else Some(now);
    var begin := [DeleteChunks(m, {k}), PutSource(doc, preserve)];
    var meta, drop, prune := MetadataStmts(m, doc, time, now, r.row, r.changes), [DropRefs(m, k)], PruneStmts(k, r.ready);
    ChunksAbout(owner, m, items, {k});
    AssetsAbout(owner, m, k, assets);
    assert AllAbout(owner, begin, m, {k}) && AllAbout(owner, meta, m, {k}) && AllAbout(owner, drop, m, {k}) && AllAbout(owner, prune, m, {k});
    AboutBoth(owner, begin, PutChunks(m, items), m, {k});
    AboutBoth(owner, begin + PutChunks(m, items), meta, m, {k});
    AboutBoth(owner, begin + PutChunks(m, items) + meta, drop, m, {k});
    AboutBoth(owner, begin + PutChunks(m, items) + meta + drop, AssetStmts(m, k, assets), m, {k});
    AboutBoth(owner, begin + PutChunks(m, items) + meta + drop + AssetStmts(m, k, assets), prune, m, {k});
  }

  lemma {:induction false} PrunesAbout(owner: AssetOwner, m: string, order: seq<DocKey>, seen: seq<bool>, ks: set<DocKey>)
    requires |order| == |seen| && forall i :: 0 <= i < |order| ==> order[i] in ks
    ensures AllAbout(owner, PruneEach(order, seen), m, ks)
  {
    if order != [] {
      var n := |order| - 1;
      PrunesAbout(owner, m, order[..n], seen[..n], ks);
      AboutBoth(owner, PruneEach(order[..n], seen[..n]), PruneStmts(order[n], seen[n]), m, ks);
    }
  }

  // ---- Following the program ----------------------------------------------------------------------

  lemma {:induction false} StatementsFollow(owner: AssetOwner, registry: set<string>, own: P.Own, done: seq<Stmt>, stmts: seq<Stmt>, tail: seq<Act>)
    requires AllPermitted(owner, registry, own, stmts) && Follows(owner, registry, own, done + stmts, tail)
    requires (LooksOnly(done) && LooksOnly(stmts)) || (SetsOnly(done) && SetsOnly(stmts))
    ensures Follows(owner, registry, own, done, Dos(stmts) + tail)
    decreases |stmts|
  {
    hide Permitted, StandsFor;
    if stmts == [] {
      assert done + stmts == done && Dos(stmts) + tail == tail;
    } else {
      var st, rest := stmts[0], Dos(stmts) + tail;
      assert done + stmts == (done + [st]) + stmts[1..];
      assert rest[1..] == Dos(stmts[1..]) + tail;
      StatementsFollow(owner, registry, own, done + [st], stmts[1..], tail);
      assert Permitted(owner, registry, own, stmts[0]);
    }
  }

  lemma CommitFollows(owner: AssetOwner, registry: set<string>, own: P.Own, done: seq<Stmt>, step: Runs.Step, tail: seq<Act>)
    requires StandsFor(owner, step, done) && Follows(owner, registry, own.(tx := {}), [], tail)
    ensures Follows(owner, registry, own, done, [Commit(step)] + tail)
  {
    hide StandsFor, Permitted;
    assert ([Commit(step)] + tail)[1..] == tail;
  }

  lemma LockFollows(owner: AssetOwner, registry: set<string>, own: P.Own, done: seq<Stmt>, l: P.Lock, tail: seq<Act>)
    requires Follows(owner, registry, own.(tx := own.tx + {l}), done, tail) && SetsOnly(done)
    ensures Follows(owner, registry, own, done, [LockTx(l)] + tail)
  {
    hide StandsFor, Permitted;
    assert ([LockTx(l)] + tail)[1..] == tail;
  }

  /** Statements and their commit. */
  lemma TransactionFollows(owner: AssetOwner, registry: set<string>, own: P.Own, done: seq<Stmt>, stmts: seq<Stmt>, step: Runs.Step, tail: seq<Act>)
    requires AllPermitted(owner, registry, own, stmts) && StandsFor(owner, step, done + stmts)
    requires (LooksOnly(done) && LooksOnly(stmts)) || (SetsOnly(done) && SetsOnly(stmts))
    requires Follows(owner, registry, own.(tx := {}), [], tail)
    ensures Follows(owner, registry, own, done, Dos(stmts) + [Commit(step)] + tail)
  {
    hide StandsFor, AllPermitted, Follows, LooksOnly, SetsOnly;
    CommitFollows(owner, registry, own, done + stmts, step, tail);
    StatementsFollow(owner, registry, own, done, stmts, [Commit(step)] + tail);
    assert Dos(stmts) + [Commit(step)] + tail == Dos(stmts) + ([Commit(step)] + tail);
  }

  lemma BothLocks(registry: set<string>, own: P.Own, m: string, k: DocKey)
    requires own.tx == {} && m in registry
    ensures var first, both := own.(tx := {P.ProfileLock(m)}), own.(tx := {P.ProfileLock(m), P.DocLock(k)});
            && HasProfile(both, m) && P.Covers(registry, both, k) && both.(tx := {}) == own
            && own.(tx := own.tx + {P.ProfileLock(m)}) == first && first.(tx := first.tx + {P.DocLock(k)}) == both
  {
    var both := own.(tx := {P.ProfileLock(m), P.DocLock(k)});
    assert P.ProfileLock(m) in P.Held(both);
    assert {} + {P.ProfileLock(m)} == {P.ProfileLock(m)};
    assert {P.ProfileLock(m)} + {P.DocLock(k)} == {P.ProfileLock(m), P.DocLock(k)};
  }

  lemma PublicationSplit(m: string, k: DocKey, stmts: seq<Stmt>, step: Runs.Step, tail: seq<Act>)
    ensures PublicationActs(m, k, stmts, step) + tail
         == [LockTx(P.ProfileLock(m))] + ([LockTx(P.DocLock(k))] + (Dos(stmts) + [Commit(step)] + tail))
  {
    hide Dos;
  }

  /** A publication, alone or under session locks. */
  lemma PublicationFollows(owner: AssetOwner, registry: set<string>, own: P.Own, m: string, k: DocKey, stmts: seq<Stmt>, step: Runs.Step, tail: seq<Act>)
    requires own.tx == {} && m in registry && AllAbout(owner, stmts, m, {k}) && StandsFor(owner, step, stmts) && LooksOnly(stmts)
    requires Follows(owner, registry, own, [], tail)
    ensures Follows(owner, registry, own, [], PublicationActs(m, k, stmts, step) + tail)
  {
    hide StandsFor, AllAbout, Follows, AllPermitted, P.Covers, HasProfile, PublicationActs, LooksOnly, SetsOnly;
    var first := own.(tx := {P.ProfileLock(m)});
    var both := own.(tx := {P.ProfileLock(m), P.DocLock(k)});
    var body := Dos(stmts) + [Commit(step)] + tail;
    BothLocks(registry, own, m, k);
    AllAboutIsPermitted(owner, registry, both, stmts, m, {k});
    NothingDone(stmts);
    TransactionFollows(owner, registry, both, [], stmts, step, tail);
    LockFollows(owner, registry, first, [], P.DocLock(k), body);
    LockFollows(owner, registry, own, [], P.ProfileLock(m), [LockTx(P.DocLock(k))] + body);
    PublicationSplit(m, k, stmts, step, tail);
  }

  lemma NothingDone(stmts: seq<Stmt>)
    ensures [] + stmts == stmts && LooksOnly([]) && SetsOnly([])
  {
  }

  // ---- Locks ------------------------------------------------------------------------------------------

  lemma {:induction false} SessionLocksFollow(owner: AssetOwner, registry: set<string>, own: P.Own, names: seq<string>, tail: seq<Act>)
    requires Follows(owner, registry, own.(session := own.session + W.ProfileLocks(names)), [], tail)
    ensures Follows(owner, registry, own, [], SessionLocks(names) + tail)
    decreases |names|
  {
    hide StandsFor, Permitted;
    if names == [] {
      assert own.session + W.ProfileLocks(names) == own.session;
      assert SessionLocks(names) + tail == tail;
    } else {
      var n := |names| - 1;
      var l := P.ProfileLock(names[n]);
      assert names == names[..n] + [names[n]];
      assert own.session + W.ProfileLocks(names[..n]) + {l} == own.session + W.ProfileLocks(names);
      assert ([LockSession(l)] + tail)[1..] == tail;
      SessionLocksFollow(owner, registry, own, names[..n], [LockSession(l)] + tail);
      assert SessionLocks(names) + tail == SessionLocks(names[..n]) + ([LockSession(l)] + tail);
    }
  }

  lemma {:induction false} SessionUnlocksFollow(owner: AssetOwner, registry: set<string>, own: P.Own, names: seq<string>, tail: seq<Act>)
    requires Follows(owner, registry, own.(session := own.session - W.ProfileLocks(names)), [], tail)
    ensures Follows(owner, registry, own, [], SessionUnlocks(names) + tail)
    decreases |names|
  {
    hide StandsFor, Permitted;
    if names == [] {
      assert own.session - W.ProfileLocks(names) == own.session;
      assert SessionUnlocks(names) + tail == tail;
    } else {
      var n := |names| - 1;
      var l := P.ProfileLock(names[n]);
      assert names == names[..n] + [names[n]];
      assert own.session - {l} - W.ProfileLocks(names[..n]) == own.session - W.ProfileLocks(names);
      var rest := SessionUnlocks(names[..n]) + tail;
      SessionUnlocksFollow(owner, registry, own.(session := own.session - {l}), names[..n], tail);
      assert SessionUnlocks(names) + tail == [UnlockSession(l)] + rest;
      assert ([UnlockSession(l)] + rest)[1..] == rest;
    }
  }

  lemma {:induction false} DocLocksFollow(owner: AssetOwner, registry: set<string>, own: P.Own, done: seq<Stmt>, keys: seq<DocKey>, tail: seq<Act>)
    requires Follows(owner, registry, own.(tx := own.tx + W.DocLocks(keys)), done, tail) && SetsOnly(done)
    ensures Follows(owner, registry, own, done, DocLocks(keys) + tail)
    decreases |keys|
  {
    hide StandsFor, Permitted, Follows;
    if keys == [] {
      assert own.tx + W.DocLocks(keys) == own.tx;
      assert DocLocks(keys) + tail == tail;
    } else {
      var n := |keys| - 1;
      var l := P.DocLock(keys[n]);
      assert keys == keys[..n] + [keys[n]];
      var before := own.(tx := own.tx + W.DocLocks(keys[..n]));
      assert before.tx + {l} == own.tx + W.DocLocks(keys);
      LockFollows(owner, registry, before, done, l, tail);
      DocLocksFollow(owner, registry, own, done, keys[..n], [LockTx(l)] + tail);
      assert DocLocks(keys) + tail == DocLocks(keys[..n]) + ([LockTx(l)] + tail);
    }
  }
}
