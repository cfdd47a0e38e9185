/** Warming: embedding a source profile's documents into a target profile, one document
    at a time, and what remains of it when a provider call fails. */
module Warming {
  import opened Text
  import opened ChunkIdentity
  import opened Store
  import opened Agreement
  import opened Reconcile
  import opened Runs
  import opened EmbeddingCache
  import opened Republication
  import opened Publication
  import opened WarmSource
  import opened WarmTables
  import Certification

  // ---- Chunks, texts and vectors --------------------------------------------------------

  function ChunkTexts(chunks: seq<Item>): (texts: seq<string>)
    ensures |texts| == |chunks|
    ensures forall i :: 0 <= i < |chunks| ==> texts[i] == chunks[i].content
  {
    if chunks == [] then [] else [chunks[0].content] + ChunkTexts(chunks[1..])
  }

  /** The texts of the first `n` documents, in the order in which they are embedded. */
  function Texts(copies: seq<Copy>, n: nat): seq<string>
    requires n <= |copies|
  {
    if n == 0 then [] else Texts(copies, n - 1) + ChunkTexts(copies[n - 1].chunks)
  }

  function AllTexts(copies: seq<Copy>): seq<string> {
    Texts(copies, |copies|)
  }

  lemma {:induction false} TextsPrefix(copies: seq<Copy>, m: nat, n: nat)
    requires m <= n <= |copies|
    ensures Texts(copies, m) <= Texts(copies, n)
    decreases n - m
  {
    if m < n {
      TextsPrefix(copies, m, n - 1);
    }
  }

  /** Chunks with the vectors a cache holds for their texts. */
  function Embedded(w: Client, cache: Cache, chunks: seq<Item>): (items: seq<Item>)
    ensures |items| == |chunks|
    ensures forall i :: 0 <= i < |chunks| ==>
              items[i] == chunks[i].(vector := if w.key(chunks[i].content) in cache then cache[w.key(chunks[i].content)] else [])
  {
    if chunks == [] then []
    else
      var c := chunks[0];
      [c.(vector := if w.key(c.content) in cache then cache[w.key(c.content)] else [])] + Embedded(w, cache, chunks[1..])
  }

  function PubOf(w: Client, cache: Cache, copy: Copy): Pub {
    Pub(copy.doc, Embedded(w, cache, copy.chunks), copy.assets)
  }

  function Pubs(w: Client, cache: Cache, copies: seq<Copy>): (pubs: seq<Pub>)
    ensures |pubs| == |copies|
    ensures forall i :: 0 <= i < |copies| ==> pubs[i] == PubOf(w, cache, copies[i])
  {
    if copies == [] then [] else [PubOf(w, cache, copies[0])] + Pubs(w, cache, copies[1..])
  }

  // ---- Attempts ----------------------------------------------------------------------------

  /** The cache and the database between attempts. */
  datatype State = State(cache: Cache, db: Db)

  /** Publication times: documents commit one by one, each with its own clock reading. */
  type Clock = nat -> int

  function SetStatus(db: Db, model: string, status: Status): Db
    requires model in db.profiles
  {
    WithProfile(db, model, db.profiles[model].(status := status))
  }

  /** Publishing documents `m` to `n` in order. */
  function PublishRange(db: Db, model: string, pubs: seq<Pub>, m: nat, n: nat, clock: Clock): (r: Db)
    requires n <= |pubs| && model in db.profiles
    ensures model in r.profiles
    decreases n
  {
    if n <= m then db else PublishOne(PublishRange(db, model, pubs, m, n - 1, clock), model, pubs[n - 1], clock(n - 1))
  }

  /** How far an attempt got: documents published, and texts embedded when it stopped. */
  datatype Attempt = Attempt(published: nat, embedded: nat, clock: Clock)

  /** A document is published once its own texts are embedded and before the next document's
      are complete; an attempt may also fail between the two. */
  predicate Reaches(copies: seq<Copy>, a: Attempt) {
    && a.published <= |copies|
    && |Texts(copies, a.published)| <= a.embedded
    && a.embedded <= |Texts(copies, if a.published < |copies| then a.published + 1 else a.published)|
    && a.embedded <= |AllTexts(copies)|
  }

  /** What one attempt leaves behind. */
  function Try(w: Client, model: string, copies: seq<Copy>, s: State, a: Attempt): (r: State)
    requires model in s.db.profiles && Reaches(copies, a)
    ensures model in r.db.profiles
  {
    var cache := Fill(w, s.cache, AllTexts(copies), a.embedded);
    State(cache, PublishRange(SetStatus(s.db, model, Warming), model, Pubs(w, cache, copies), 0, a.published, a.clock))
  }

  function TryAll(w: Client, model: string, copies: seq<Copy>, s: State, attempts: seq<Attempt>): (r: State)
    requires model in s.db.profiles && forall i :: 0 <= i < |attempts| ==> Reaches(copies, attempts[i])
    ensures model in r.db.profiles
  {
    if attempts == [] then s
    else Try(w, model, copies, TryAll(w, model, copies, s, attempts[..|attempts| - 1]), attempts[|attempts| - 1])
  }

  function Whole(copies: seq<Copy>, clock: Clock): (a: Attempt)
    ensures Reaches(copies, a)
  {
    Attempt(|copies|, |AllTexts(copies)|, clock)
  }

  /** A warm that succeeds: every document published, then the profile made ready. */
  function Complete(w: Client, model: string, copies: seq<Copy>, s: State, clock: Clock): (r: State)
    requires model in s.db.profiles
    ensures model in r.db.profiles
  {
    var done := Try(w, model, copies, s, Whole(copies, clock));
    done.(db := SetStatus(done.db, model, Ready))
  }

  // ---- Ranges of publications ----------------------------------------------------------------

  lemma {:induction false} RangeSplits(db: Db, model: string, pubs: seq<Pub>, m: nat, n: nat, clock: Clock)
    requires m <= n <= |pubs| && model in db.profiles
    ensures PublishRange(db, model, pubs, 0, n, clock)
         == PublishRange(PublishRange(db, model, pubs, 0, m, clock), model, pubs, m, n, clock)
    decreases n
  {
    hide PublishOne;
    if m < n {
      RangeSplits(db, model, pubs, m, n - 1, clock);
    }
  }

  lemma {:induction false} SameRange(db: Db, model: string, a: seq<Pub>, b: seq<Pub>, n: nat, clock: Clock)
    requires n <= |a| && n <= |b| && model in db.profiles
    requires forall i :: 0 <= i < n ==> a[i] == b[i]
    ensures PublishRange(db, model, a, 0, n, clock) == PublishRange(db, model, b, 0, n, clock)
    decreases n
  {
    if n > 0 {
      SameRange(db, model, a, b, n - 1, clock);
    }
  }

  ghost predicate SettledUpTo(db: Db, model: string, pubs: seq<Pub>, n: nat)
    requires model in db.profiles && n <= |pubs|
  {
    forall i :: 0 <= i < n ==> Settled(db, model, pubs[i])
  }

  /** Publishing what is already settled changes nothing at all. */
  lemma {:induction false} SettledRangeIsIdle(db: Db, model: string, pubs: seq<Pub>, n: nat, clock: Clock)
    requires n <= |pubs| && model in db.profiles && PubsProper(pubs)
    requires SettledUpTo(db, model, pubs, n)
    ensures PublishRange(db, model, pubs, 0, n, clock) == db
    decreases n
  {
    hide PublishOne, Settled;
    if n > 0 {
      SettledRangeIsIdle(db, model, pubs, n - 1, clock);
      SettledIsIdle(db, model, pubs[n - 1], clock(n - 1));
    }
  }

  lemma {:induction false} RangeTable(db: Db, model: string, pubs: seq<Pub>, n: nat, clock: Clock)
    requires n <= |pubs| && model in db.profiles
    ensures PublishRange(db, model, pubs, 0, n, clock).profiles[model].table == TableAfter(db.profiles[model].table, pubs, n)
    decreases n
  {
    hide PublishOne, ReplacedTable;
    if n > 0 {
      RangeTable(db, model, pubs, n - 1, clock);
      PublishOneTable(PublishRange(db, model, pubs, 0, n - 1, clock), model, pubs[n - 1], clock(n - 1));
    }
  }

  lemma PublishOneTable(db: Db, model: string, pub: Pub, now: int)
    requires model in db.profiles
    ensures PublishOne(db, model, pub, now).profiles[model].table == ReplacedTable(db.profiles[model].table, pub.doc.key, pub.items)
  {
    hide ReplaceWritten, ReplacedTable;
    ReplaceEffect(db, model, pub.doc, pub.items, pub.assets, true, now);
  }

  // ---- All but the chunk table ------------------------------------------------------------------

  ghost predicate ListedUpTo(db: Db, model: string, pubs: seq<Pub>, n: nat)
    requires model in db.profiles && n <= |pubs|
  {
    forall i :: 0 <= i < n ==> ListedSettled(db, model, pubs[i])
  }

  lemma OneMoreListed(db: Db, model: string, pubs: seq<Pub>, n: nat, now: int)
    requires n < |pubs| && Unrepeated(pubs) && WarmInv(db, model, pubs) && ListedUpTo(db, model, pubs, n)
    ensures ListedUpTo(PublishOne(db, model, pubs[n], now), model, pubs, n + 1)
  {
    hide PublishOne, ListedSettled;
    PublishSettlesListed(db, model, pubs[n], now);
    forall i | 0 <= i < n ensures ListedSettled(PublishOne(db, model, pubs[n], now), model, pubs[i]) {
      OthersStayListed(db, model, pubs[i], pubs[n], now);
    }
  }

  lemma {:induction false} RangeLists(db: Db, model: string, pubs: seq<Pub>, m: nat, n: nat, clock: Clock)
    requires m <= n <= |pubs| && Unrepeated(pubs) && WarmInv(db, model, pubs) && ListedUpTo(db, model, pubs, m)
    ensures var r := PublishRange(db, model, pubs, m, n, clock);
            WarmInv(r, model, pubs) && ListedUpTo(r, model, pubs, n)
    decreases n
  {
    hide PublishOne, Unrepeated, ListedUpTo;
    if m < n {
      RangeLists(db, model, pubs, m, n - 1, clock);
      var d := PublishRange(db, model, pubs, m, n - 1, clock);
      OneMoreListed(d, model, pubs, n - 1, clock(n - 1));
      PublishKeepsWarmInv(d, model, pubs, n - 1, clock(n - 1));
    }
  }

  /** What is said of all but the table carries over between databases that differ in it. */
  lemma TableDoesNotMatter(a: Db, b: Db, model: string, pubs: seq<Pub>)
    requires model in a.profiles && model in b.profiles && Emptied(a, model) == Emptied(b, model)
    ensures WarmInv(a, model, pubs) ==> WarmInv(b, model, pubs)
    ensures forall i :: 0 <= i < |pubs| && ListedSettled(a, model, pubs[i]) ==> ListedSettled(b, model, pubs[i])
  {
    assert Emptied(a, model).profiles[model].catalog == Emptied(b, model).profiles[model].catalog;
    assert a.profiles[model].catalog == b.profiles[model].catalog;
    assert a.refs == Emptied(a, model).refs == b.refs;
    assert a.assets == Emptied(a, model).assets == b.assets;
    assert a.sources == Emptied(a, model).sources == b.sources;
    assert a.ready == Emptied(a, model).ready == b.ready;
  }

  lemma {:induction false} ListedRangeIsIdle(db: Db, model: string, pubs: seq<Pub>, n: nat, clock: Clock)
    requires n <= |pubs| && model in db.profiles && Unrepeated(pubs) && ListedUpTo(db, model, pubs, n)
    ensures Emptied(PublishRange(db, model, pubs, 0, n, clock), model) == Emptied(db, model)
    decreases n
  {
    hide PublishOne, ListedSettled, Emptied;
    if n > 0 {
      ListedRangeIsIdle(db, model, pubs, n - 1, clock);
      var d := PublishRange(db, model, pubs, 0, n - 1, clock);
      TableDoesNotMatter(db, d, model, pubs);
      ListedIsIdle(d, model, pubs[n - 1], clock(n - 1));
    }
  }

  /** A pass over documents that take nothing from each other settles each of them and
      disturbs none that was in place. */
  lemma RangeSettles(db: Db, model: string, pubs: seq<Pub>, m: nat, n: nat, clock: Clock)
    requires m <= n <= |pubs| && PubsProper(pubs) && WarmInv(db, model, pubs)
    requires Apart(pubs) && Clear(db.profiles[model].table, pubs) && SettledUpTo(db, model, pubs, m)
    ensures var r := PublishRange(db, model, pubs, 0, n, clock);
            WarmInv(r, model, pubs) && Clear(r.profiles[model].table, pubs) && SettledUpTo(r, model, pubs, n)
  {
    hide PublishRange, Clear, Apart, ListedSettled, Settled, AssetsKnown, Homed;
    var r := PublishRange(db, model, pubs, 0, n, clock);
    RangeLists(db, model, pubs, 0, n, clock);
    RangeTable(db, model, pubs, n, clock);
    PassSettles(db.profiles[model].table, pubs, 0, n);
    forall i | 0 <= i < n ensures Settled(r, model, pubs[i]) {
      SettledInParts(r, model, pubs[i]);
    }
  }

  // ---- Equal but for the times of the last write ----------------------------------------------

  ghost predicate SameRows(a: Catalog, b: Catalog) {
    a.Keys == b.Keys && forall k :: k in a ==> SamePublication(a[k], b[k])
  }

  ghost predicate SameProfile(a: Profile, b: Profile) {
    a.(catalog := b.catalog) == b && SameRows(a.catalog, b.catalog)
  }

  /** Two databases that differ at most in the private `updated_at` column. */
  ghost predicate SameButStamps(a: Db, b: Db) {
    && a.(profiles := b.profiles) == b
    && a.profiles.Keys == b.profiles.Keys
    && forall m :: m in a.profiles ==> SameProfile(a.profiles[m], b.profiles[m])
  }

  lemma SameShared(a: Db, b: Db, k: DocKey)
    requires SameButStamps(a, b)
    ensures Published(a, k) <==> Published(b, k)
  {
    if Published(a, k) {
      var m :| m in a.profiles && k in a.profiles[m].catalog;
      assert m in b.profiles && k in b.profiles[m].catalog;
    }
    if Published(b, k) {
      var m :| m in b.profiles && k in b.profiles[m].catalog;
      assert m in a.profiles && k in a.profiles[m].catalog;
    }
  }

  lemma SamePrune(a: Db, b: Db, k: DocKey)
    requires SameButStamps(a, b)
    ensures SameButStamps(Prune(a, k), Prune(b, k))
  {
    SameShared(a, b, k);
    assert Published(DropOrphanAssets(a, k), k) <==> Published(a, k);
    assert Published(DropOrphanAssets(b, k), k) <==> Published(b, k);
  }

  lemma {:induction false} SameInsertAssets(a: Db, b: Db, model: string, k: DocKey, assets: seq<AssetRecord>)
    requires SameButStamps(a, b)
    ensures SameButStamps(InsertAssets(a, model, k, assets), InsertAssets(b, model, k, assets))
  {
    if assets != [] {
      SameInsertAssets(a, b, model, k, assets[..|assets| - 1]);
    }
  }

  lemma SamePublishRow(p: Profile, q: Profile, doc: Document, now: int, later: int)
    requires SameProfile(p, q)
    ensures SameProfile(p.(catalog := PublishRow(p.catalog, doc.key, NewRow(p.table, doc, doc.time, now))),
                        q.(catalog := PublishRow(q.catalog, doc.key, NewRow(q.table, doc, doc.time, later))))
    ensures PublicChanges(p.catalog, doc.key, NewRow(p.table, doc, doc.time, now))
       <==> PublicChanges(q.catalog, doc.key, NewRow(q.table, doc, doc.time, later))
  {
  }

  lemma SameWithProfile(a: Db, b: Db, model: string, p: Profile, q: Profile, scope: Scope)
    requires SameButStamps(a, b) && SameProfile(p, q)
    ensures SameButStamps(WithProfile(a, model, p), WithProfile(b, model, q))
    ensures SameButStamps(Bump(WithProfile(a, model, p), scope), Bump(WithProfile(b, model, q), scope))
  {
  }

  lemma SamePublishMetadata(a: Db, b: Db, model: string, doc: Document, now: int, later: int)
    requires SameButStamps(a, b) && model in a.profiles
    ensures SameButStamps(Store.PublishMetadata(a, model, doc, doc.time, now), Store.PublishMetadata(b, model, doc, doc.time, later))
  {
    hide Bump, PublishRow, NewRow, PublicChanges;
    var p, q := a.profiles[model], b.profiles[model];
    assert SameProfile(p, q);
    SamePublishRow(p, q, doc, now, later);
    SameWithProfile(a, b, model, p.(catalog := PublishRow(p.catalog, doc.key, NewRow(p.table, doc, doc.time, now))),
                    q.(catalog := PublishRow(q.catalog, doc.key, NewRow(q.table, doc, doc.time, later))), ScopeOf(model, doc.key));
  }

  lemma SameReplaceRows(a: Db, b: Db, model: string, pub: Pub, now: int, later: int)
    requires SameButStamps(a, b) && model in a.profiles
    ensures SameButStamps(ReplaceRows(a, model, pub.doc, pub.items, true, now), ReplaceRows(b, model, pub.doc, pub.items, true, later))
  {
    hide ReplacedTable;
    assert SameProfile(a.profiles[model], b.profiles[model]);
    var t := ReplacedTable(a.profiles[model].table, pub.doc.key, pub.items);
    var c := InsertSource(WithProfile(a, model, a.profiles[model].(table := t)), pub.doc, true);
    var d := InsertSource(WithProfile(b, model, b.profiles[model].(table := t)), pub.doc, true);
    assert SameButStamps(c, d);
    SamePublishMetadata(c, d, model, pub.doc, now, later);
  }

  lemma SamePublishOne(a: Db, b: Db, model: string, pub: Pub, now: int, later: int)
    requires SameButStamps(a, b) && model in a.profiles
    ensures SameButStamps(PublishOne(a, model, pub, now), PublishOne(b, model, pub, later))
  {
    hide ReplaceRows, Prune;
    SameReplaceRows(a, b, model, pub, now, later);
    var c := ReplaceRows(a, model, pub.doc, pub.items, true, now);
    var d := ReplaceRows(b, model, pub.doc, pub.items, true, later);
    assert SameButStamps(DeleteRefs(c, model, {pub.doc.key}), DeleteRefs(d, model, {pub.doc.key}));
    SameInsertAssets(DeleteRefs(c, model, {pub.doc.key}), DeleteRefs(d, model, {pub.doc.key}), model, pub.doc.key, pub.assets);
    SamePrune(InsertAssets(DeleteRefs(c, model, {pub.doc.key}), model, pub.doc.key, pub.assets),
              InsertAssets(DeleteRefs(d, model, {pub.doc.key}), model, pub.doc.key, pub.assets), pub.doc.key);
  }

  lemma {:induction false} SameRanges(a: Db, b: Db, model: string, pubs: seq<Pub>, m: nat, n: nat, c: Clock, d: Clock)
    requires n <= |pubs| && SameButStamps(a, b) && model in a.profiles
    ensures SameButStamps(PublishRange(a, model, pubs, m, n, c), PublishRange(b, model, pubs, m, n, d))
    decreases n
  {
    hide PublishOne;
    if m < n {
      SameRanges(a, b, model, pubs, m, n - 1, c, d);
      SamePublishOne(PublishRange(a, model, pubs, m, n - 1, c), PublishRange(b, model, pubs, m, n - 1, d), model, pubs[n - 1], c(n - 1), d(n - 1));
    }
  }

  /** Two databases that differ at most in `updated_at` and in one chunk table. */
  ghost predicate Alike(a: Db, b: Db, model: string) {
    model in a.profiles && model in b.profiles && SameButStamps(Emptied(a, model), Emptied(b, model))
  }

  lemma SameEmptied(a: Db, b: Db, model: string)
    requires SameButStamps(a, b) && model in a.profiles
    ensures Alike(a, b, model)
  {
  }

  lemma AlikeWithTable(a: Db, b: Db, model: string)
    requires Alike(a, b, model) && a.profiles[model].table == b.profiles[model].table
    ensures SameButStamps(a, b)
  {
    var x, y := Emptied(a, model), Emptied(b, model);
    assert a.profiles.Keys == x.profiles.Keys && b.profiles.Keys == y.profiles.Keys;
    assert x.(profiles := y.profiles) == y;
    assert a.(profiles := b.profiles) == b;
    assert SameProfile(x.profiles[model], y.profiles[model]);
    forall m | m in a.profiles && m != model ensures SameProfile(a.profiles[m], b.profiles[m]) {
      assert SameProfile(x.profiles[m], y.profiles[m]);
    }
  }

  lemma AlikePublish(a: Db, b: Db, model: string, pub: Pub, now: int, later: int)
    requires Alike(a, b, model)
    ensures Alike(PublishOne(a, model, pub, now), PublishOne(b, model, pub, later), model)
  {
    hide PublishOne, SameButStamps, Emptied;
    PublishEmptied(a, model, pub, now);
    PublishEmptied(b, model, pub, later);
    SamePublishOne(Emptied(a, model), Emptied(b, model), model, pub, now, later);
    SameEmptied(PublishOne(Emptied(a, model), model, pub, now), PublishOne(Emptied(b, model), model, pub, later), model);
  }

  lemma {:induction false} AlikeRanges(a: Db, b: Db, model: string, pubs: seq<Pub>, m: nat, n: nat, c: Clock, d: Clock)
    requires n <= |pubs| && Unrepeated(pubs) && Alike(a, b, model)
    ensures Alike(PublishRange(a, model, pubs, m, n, c), PublishRange(b, model, pubs, m, n, d), model)
    decreases n
  {
    hide PublishOne, SameButStamps, Emptied;
    if m < n {
      AlikeRanges(a, b, model, pubs, m, n - 1, c, d);
      AlikePublish(PublishRange(a, model, pubs, m, n - 1, c), PublishRange(b, model, pubs, m, n - 1, d), model, pubs[n - 1], c(n - 1), d(n - 1));
    }
  }

  lemma AlikeByTable(a: Db, b: Db, c: Db, model: string)
    requires model in a.profiles && model in b.profiles && Emptied(a, model) == Emptied(b, model) && Alike(b, c, model)
    ensures Alike(a, c, model)
  {
  }

  // ---- Failures and retries ---------------------------------------------------------------------

  /** The publications of a warm: those of a run in which no call fails. */
  function Goal(w: Client, cache: Cache, copies: seq<Copy>): seq<Pub> {
    Pubs(w, Fill(w, cache, AllTexts(copies), |AllTexts(copies)|), copies)
  }

  lemma {:induction false} EmbeddedStable(w: Client, c: Cache, d: Cache, chunks: seq<Item>)
    requires forall k :: k in c ==> k in d && d[k] == c[k]
    requires forall i :: 0 <= i < |chunks| ==> w.key(chunks[i].content) in c
    ensures Embedded(w, c, chunks) == Embedded(w, d, chunks)
  {
  }

  lemma {:induction false} KeyOf(w: Client, texts: seq<string>, n: nat, i: nat)
    requires i < n <= |texts|
    ensures w.key(texts[i]) in EmbeddingCache.Keys(w, texts, n)
  {
    if i < n - 1 {
      KeyOf(w, texts, n - 1, i);
    }
  }

  /** A document whose texts have all been embedded is embedded for good. */
  lemma PubStable(w: Client, cache: Cache, copies: seq<Copy>, i: nat, m: nat, n: nat)
    requires i < |copies| && |Texts(copies, i + 1)| <= m <= n <= |AllTexts(copies)|
    ensures PubOf(w, Fill(w, cache, AllTexts(copies), m), copies[i]) == PubOf(w, Fill(w, cache, AllTexts(copies), n), copies[i])
  {
    var texts := AllTexts(copies);
    var chunks := copies[i].chunks;
    TextsPrefix(copies, i + 1, |copies|);
    FillKeys(w, cache, texts, m);
    forall j | 0 <= j < |chunks| ensures w.key(chunks[j].content) in Fill(w, cache, texts, m) {
      var at := |Texts(copies, i)| + j;
      assert Texts(copies, i + 1)[at] == chunks[j].content;
      KeyOf(w, texts, m, at);
    }
    FillResumes(w, cache, texts, m, n);
    FillKeys(w, Fill(w, cache, texts, m), texts, n);
    EmbeddedStable(w, Fill(w, cache, texts, m), Fill(w, cache, texts, n), chunks);
  }

  lemma PubsUpTo(w: Client, cache: Cache, copies: seq<Copy>, k: nat, m: nat)
    requires k <= |copies| && |Texts(copies, k)| <= m <= |AllTexts(copies)|
    ensures forall i :: 0 <= i < k ==> Pubs(w, Fill(w, cache, AllTexts(copies), m), copies)[i] == Goal(w, cache, copies)[i]
  {
    forall i | 0 <= i < k
      ensures Pubs(w, Fill(w, cache, AllTexts(copies), m), copies)[i] == Goal(w, cache, copies)[i]
    {
      TextsPrefix(copies, i + 1, k);
      PubStable(w, cache, copies, i, m, |AllTexts(copies)|);
    }
  }

  /** Where attempts have come to: some documents listed as an uninterrupted run would have
      left them, and some texts cached. */
  ghost predicate Progress(w: Client, model: string, copies: seq<Copy>, start: State, s: State,
                           published: nat, embedded: nat, clock: Clock)
    requires model in start.db.profiles
  {
    var pubs := Goal(w, start.cache, copies);
    && published <= |copies| && |Texts(copies, published)| <= embedded <= |AllTexts(copies)|
    && s.cache == Fill(w, start.cache, AllTexts(copies), embedded)
    && WarmInv(s.db, model, pubs)
    && ListedUpTo(s.db, model, pubs, published)
    && Alike(SetStatus(s.db, model, Warming),
             PublishRange(SetStatus(start.db, model, Warming), model, pubs, 0, published, clock), model)
  }

  lemma StatusKeepsInv(db: Db, model: string, pubs: seq<Pub>, n: nat, status: Status)
    requires WarmInv(db, model, pubs) && n <= |pubs| && ListedUpTo(db, model, pubs, n)
    ensures WarmInv(SetStatus(db, model, status), model, pubs)
    ensures ListedUpTo(SetStatus(db, model, status), model, pubs, n)
  {
    var d := SetStatus(db, model, status);
    forall i | 0 <= i < n ensures ListedSettled(d, model, pubs[i]) {
      assert ListedSettled(db, model, pubs[i]);
    }
  }

  lemma {:induction false} RangeKeepsStatus(db: Db, model: string, pubs: seq<Pub>, m: nat, n: nat, clock: Clock)
    requires n <= |pubs| && model in db.profiles
    ensures PublishRange(db, model, pubs, m, n, clock).profiles[model].status == db.profiles[model].status
    decreases n
  {
    hide PublishOne;
    if m < n {
      RangeKeepsStatus(db, model, pubs, m, n - 1, clock);
      PublishKeepsStatus(PublishRange(db, model, pubs, m, n - 1, clock), model, pubs[n - 1], clock(n - 1));
    }
  }

  lemma PublishKeepsStatus(db: Db, model: string, pub: Pub, now: int)
    requires model in db.profiles
    ensures PublishOne(db, model, pub, now).profiles[model].status == db.profiles[model].status
  {
    hide ReplaceWritten;
    ReplaceEffect(db, model, pub.doc, pub.items, pub.assets, true, now);
  }

  lemma SetStatusAgain(db: Db, model: string, status: Status)
    requires model in db.profiles && db.profiles[model].status == status
    ensures SetStatus(db, model, status) == db
  {
    assert db.profiles[model := db.profiles[model]] == db.profiles;
  }

  function Max(a: nat, b: nat): nat {
    Larger(a, b)
  }

  /** What was settled is gone over without effect. */
  lemma GoneOver(model: string, pubs: seq<Pub>, d: Db, e: Db, k: nat, i: nat, c: Clock)
    requires i <= k <= |pubs| && Unrepeated(pubs) && WarmInv(d, model, pubs)
    requires ListedUpTo(d, model, pubs, k) && Alike(d, e, model)
    ensures var r := PublishRange(d, model, pubs, 0, i, c);
            WarmInv(r, model, pubs) && ListedUpTo(r, model, pubs, k) && Alike(r, e, model)
  {
    hide PublishOne, Unrepeated, ListedSettled, Alike, Emptied, AssetsKnown, Homed;
    var r := PublishRange(d, model, pubs, 0, i, c);
    ListedRangeIsIdle(d, model, pubs, i, c);
    TableDoesNotMatter(d, r, model, pubs);
    AlikeByTable(r, d, e, model);
  }

  /** One more attempt: what was settled is gone over, the rest goes on from there. */
  lemma PublishAgain(model: string, pubs: seq<Pub>, d: Db, e: Db, k: nat, n: nat, c: Clock, clock: Clock)
    requires k <= |pubs| && n <= |pubs| && Unrepeated(pubs) && WarmInv(d, model, pubs) && model in e.profiles
    requires ListedUpTo(d, model, pubs, k) && Alike(d, PublishRange(e, model, pubs, 0, k, clock), model)
    ensures var r := PublishRange(d, model, pubs, 0, n, c);
            && WarmInv(r, model, pubs) && ListedUpTo(r, model, pubs, Max(k, n))
            && Alike(r, PublishRange(e, model, pubs, 0, Max(k, n), clock), model)
  {
    hide PublishOne, Unrepeated, ListedUpTo, Alike, AssetsKnown, Homed, PublishRange;
    if n <= k {
      GoneOver(model, pubs, d, PublishRange(e, model, pubs, 0, k, clock), k, n, c);
    } else {
      GoneOver(model, pubs, d, PublishRange(e, model, pubs, 0, k, clock), k, k, c);
      var s := PublishRange(d, model, pubs, 0, k, c);
      RangeSplits(d, model, pubs, k, n, c);
      RangeSplits(e, model, pubs, k, n, clock);
      RangeLists(s, model, pubs, k, n, c);
      AlikeRanges(s, PublishRange(e, model, pubs, 0, k, clock), model, pubs, k, n, c, clock);
    }
  }

  lemma TryDb(w: Client, model: string, copies: seq<Copy>, start: State, s: State, e: nat, a: Attempt)
    requires model in s.db.profiles && Reaches(copies, a)
    requires e <= |AllTexts(copies)| && s.cache == Fill(w, start.cache, AllTexts(copies), e)
    ensures Try(w, model, copies, s, a).cache == Fill(w, start.cache, AllTexts(copies), Max(e, a.embedded))
    ensures Try(w, model, copies, s, a).db
         == PublishRange(SetStatus(s.db, model, Warming), model, Goal(w, start.cache, copies), 0, a.published, a.clock)
  {
    FillResumes(w, start.cache, AllTexts(copies), e, a.embedded);
    PubsUpTo(w, start.cache, copies, a.published, Max(e, a.embedded));
    SameRange(SetStatus(s.db, model, Warming), model, Pubs(w, Try(w, model, copies, s, a).cache, copies),
              Goal(w, start.cache, copies), a.published, a.clock);
  }

  lemma TryFromStart(w: Client, model: string, copies: seq<Copy>, start: State, a: Attempt)
    requires model in start.db.profiles && Reaches(copies, a)
    ensures Try(w, model, copies, start, a).cache == Fill(w, start.cache, AllTexts(copies), a.embedded)
    ensures Try(w, model, copies, start, a).db
         == PublishRange(SetStatus(start.db, model, Warming), model, Goal(w, start.cache, copies), 0, a.published, a.clock)
  {
    hide PublishRange, Texts, Pubs, Goal;
    TryDb(w, model, copies, start, start, 0, a);
  }

  lemma TryProgress(w: Client, model: string, copies: seq<Copy>, start: State, s: State, k: nat, e: nat, a: Attempt, clock: Clock)
    requires model in start.db.profiles && Reaches(copies, a) && Unrepeated(Goal(w, start.cache, copies))
    requires Progress(w, model, copies, start, s, k, e, clock)
    ensures Progress(w, model, copies, start, Try(w, model, copies, s, a), Max(k, a.published), Max(e, a.embedded), clock)
    ensures Try(w, model, copies, s, a).db.profiles[model].status == Warming
  {
    hide PublishRange, PublishOne, ListedUpTo, Alike, Unrepeated, Fill, Pubs, Texts;
    var pubs := Goal(w, start.cache, copies);
    TryDb(w, model, copies, start, s, e, a);
    StatusKeepsInv(s.db, model, pubs, k, Warming);
    PublishAgain(model, pubs, SetStatus(s.db, model, Warming), SetStatus(start.db, model, Warming), k, a.published, a.clock, clock);
    RangeKeepsStatus(SetStatus(s.db, model, Warming), model, pubs, 0, a.published, a.clock);
    SetStatusAgain(Try(w, model, copies, s, a).db, model, Warming);
  }

  lemma NoProgressYet(w: Client, model: string, copies: seq<Copy>, start: State, clock: Clock)
    requires model in start.db.profiles && WarmInv(start.db, model, Goal(w, start.cache, copies))
    ensures Progress(w, model, copies, start, start, 0, 0, clock)
  {
  }

  lemma {:induction false} AttemptsProgress(w: Client, model: string, copies: seq<Copy>, start: State,
                                            attempts: seq<Attempt>, clock: Clock) returns (k: nat, e: nat)
    requires model in start.db.profiles && (forall i :: 0 <= i < |attempts| ==> Reaches(copies, attempts[i]))
    requires Unrepeated(Goal(w, start.cache, copies)) && WarmInv(start.db, model, Goal(w, start.cache, copies))
    ensures Progress(w, model, copies, start, TryAll(w, model, copies, start, attempts), k, e, clock)
    ensures forall i :: 0 <= i < |attempts| ==> attempts[i].published <= k
    ensures attempts != [] ==> TryAll(w, model, copies, start, attempts).db.profiles[model].status == Warming
    ensures k == 0 || exists i :: 0 <= i < |attempts| && attempts[i].published == k
  {
    hide Progress, Try, Unrepeated, WarmInv, Goal, Reaches;
    if attempts == [] {
      k, e := 0, 0;
      NoProgressYet(w, model, copies, start, clock);
    } else {
      var n := |attempts| - 1;
      var k', e' := AttemptsProgress(w, model, copies, start, attempts[..n], clock);
      TryProgress(w, model, copies, start, TryAll(w, model, copies, start, attempts[..n]), k', e', attempts[n], clock);
      k, e := Max(k', attempts[n].published), Max(e', attempts[n].embedded);
    }
  }

  // ---- The table through attempts ---------------------------------------------------------------

  /** How far each attempt got with publishing. */
  function Reached(attempts: seq<Attempt>): (r: seq<nat>)
    ensures |r| == |attempts| && forall i :: 0 <= i < |r| ==> r[i] == attempts[i].published
  {
    if attempts == [] then [] else Reached(attempts[..|attempts| - 1]) + [attempts[|attempts| - 1].published]
  }

  lemma {:induction false} TryAllTable(w: Client, model: string, copies: seq<Copy>, start: State, attempts: seq<Attempt>)
    requires model in start.db.profiles && (forall i :: 0 <= i < |attempts| ==> Reaches(copies, attempts[i]))
    requires Unrepeated(Goal(w, start.cache, copies)) && WarmInv(start.db, model, Goal(w, start.cache, copies))
    ensures forall i :: 0 <= i < |Reached(attempts)| ==> Reached(attempts)[i] <= |Goal(w, start.cache, copies)|
    ensures TryAll(w, model, copies, start, attempts).db.profiles[model].table
         == TableAfterAll(start.db.profiles[model].table, Goal(w, start.cache, copies), Reached(attempts))
  {
    hide Try, TableAfter, Unrepeated, WarmInv, Texts, PublishRange, Fill, Pubs, Alike, ListedUpTo;
    ReachedWithin(w, start.cache, copies, attempts);
    if attempts != [] {
      var n := |attempts| - 1;
      var pubs := Goal(w, start.cache, copies);
      TryAllTable(w, model, copies, start, attempts[..n]);
      var clock: Clock := i => 0;
      var k, e := AttemptsProgress(w, model, copies, start, attempts[..n], clock);
      var s := TryAll(w, model, copies, start, attempts[..n]);
      TryDb(w, model, copies, start, s, e, attempts[n]);
      RangeTable(SetStatus(s.db, model, Warming), model, pubs, attempts[n].published, attempts[n].clock);
      assert Reached(attempts)[..n] == Reached(attempts[..n]);
    }
  }

  lemma ReachedWithin(w: Client, cache: Cache, copies: seq<Copy>, attempts: seq<Attempt>)
    requires forall i :: 0 <= i < |attempts| ==> Reaches(copies, attempts[i])
    ensures forall i :: 0 <= i < |Reached(attempts)| ==> Reached(attempts)[i] <= |Goal(w, cache, copies)|
  {
    hide Goal, Reached;
    assert |Goal(w, cache, copies)| == |copies| by {
      GoalLength(w, cache, copies);
    }
    forall i | 0 <= i < |attempts| ensures attempts[i].published <= |copies| {
      TryReaches(copies, attempts[i]);
    }
  }

  lemma GoalLength(w: Client, cache: Cache, copies: seq<Copy>)
    ensures |Goal(w, cache, copies)| == |copies|
    ensures forall i :: 0 <= i < |copies| ==> Goal(w, cache, copies)[i].doc == copies[i].doc
  {
  }

  // ---- Retries converge ---------------------------------------------------------------------------

  /** Any failures followed by a success end where one uninterrupted warm ends: the same
      cache, chunks, counts, hashes, times and revisions. Only `updated_at` may differ.  That
      holds even where documents take chunk keys from each other. */
  lemma RetriesConverge(w: Client, model: string, copies: seq<Copy>, start: State,
                        attempts: seq<Attempt>, last: Clock, once: Clock)
    requires model in start.db.profiles && (forall i :: 0 <= i < |attempts| ==> Reaches(copies, attempts[i]))
    requires Unrepeated(Goal(w, start.cache, copies)) && WarmInv(start.db, model, Goal(w, start.cache, copies))
    ensures var retried := Complete(w, model, copies, TryAll(w, model, copies, start, attempts), last);
            var direct := Complete(w, model, copies, start, once);
            retried.cache == direct.cache && SameButStamps(retried.db, direct.db)
  {
    hide PublishRange, Alike, SameButStamps, WarmInv, ListedUpTo, Unrepeated, Texts, Goal, Fill, TableAfter, TableAfterAll;
    var pubs := Goal(w, start.cache, copies);
    var k, e := AttemptsProgress(w, model, copies, start, attempts, once);
    var before := TryAll(w, model, copies, start, attempts);
    var retried := Try(w, model, copies, before, Whole(copies, last)).db;
    var direct := Try(w, model, copies, start, Whole(copies, once)).db;
    TryProgress(w, model, copies, start, before, k, e, Whole(copies, last), once);
    SetStatusAgain(retried, model, Warming);
    TryFromStart(w, model, copies, start, Whole(copies, once));
    assert Alike(retried, direct, model);
    SameTables(w, model, copies, start, attempts, e, last, once);
    AlikeWithTable(retried, direct, model);
    SameReady(retried, direct, model);
  }

  lemma SameTables(w: Client, model: string, copies: seq<Copy>, start: State, attempts: seq<Attempt>, e: nat, last: Clock, once: Clock)
    requires model in start.db.profiles && (forall i :: 0 <= i < |attempts| ==> Reaches(copies, attempts[i]))
    requires Unrepeated(Goal(w, start.cache, copies)) && WarmInv(start.db, model, Goal(w, start.cache, copies))
    requires e <= |AllTexts(copies)| && TryAll(w, model, copies, start, attempts).cache == Fill(w, start.cache, AllTexts(copies), e)
    ensures Try(w, model, copies, TryAll(w, model, copies, start, attempts), Whole(copies, last)).db.profiles[model].table
         == Try(w, model, copies, start, Whole(copies, once)).db.profiles[model].table
  {
    hide PublishRange, WarmInv, Unrepeated, Texts, Goal, Fill, TableAfter, TableAfterAll, TryAll, Try;
    var pubs := Goal(w, start.cache, copies);
    var before := TryAll(w, model, copies, start, attempts);
    GoalLength(w, start.cache, copies);
    TryAllTable(w, model, copies, start, attempts);
    TryDb(w, model, copies, start, before, e, Whole(copies, last));
    TryFromStart(w, model, copies, start, Whole(copies, once));
    RangeTable(SetStatus(before.db, model, Warming), model, pubs, |copies|, last);
    RangeTable(SetStatus(start.db, model, Warming), model, pubs, |copies|, once);
    TablesConverge(start.db.profiles[model].table, pubs, Reached(attempts));
  }

  lemma SameReady(a: Db, b: Db, model: string)
    requires SameButStamps(a, b) && model in a.profiles
    ensures SameButStamps(SetStatus(a, model, Ready), SetStatus(b, model, Ready))
  {
  }

  // ---- Wholly old or wholly new -------------------------------------------------------------------

  /** A document's catalog row and references are the same. */
  ghost predicate SameListing(a: Db, b: Db, model: string, k: DocKey)
    requires model in a.profiles && model in b.profiles
  {
    var p, q := a.profiles[model], b.profiles[model];
    && (k in p.catalog <==> k in q.catalog) && (k in p.catalog ==> p.catalog[k] == q.catalog[k])
    && (forall x: string :: Ref(model, k, x) in a.refs <==> Ref(model, k, x) in b.refs)
  }

  /** Nothing stored about a document under a profile has changed. */
  ghost predicate Untouched(a: Db, b: Db, model: string, k: DocKey)
    requires model in a.profiles && model in b.profiles
  {
    SameRowsOf(a.profiles[model].table, b.profiles[model].table, k) && SameListing(a, b, model, k)
  }

  lemma PublishLeaves(db: Db, model: string, pubs: seq<Pub>, i: nat, k: DocKey, now: int)
    requires i < |pubs| && WarmInv(db, model, pubs) && pubs[i].doc.key != k
    ensures SameListing(PublishOne(db, model, pubs[i], now), db, model, k)
  {
    hide ReplaceWritten, ReplacedTable, PublishRow;
    var pub := pubs[i];
    var p := db.profiles[model];
    ReplaceEffect(db, model, pub.doc, pub.items, pub.assets, true, now);
    PublishOneShared(db, model, pub, now);
    PublishRowLeaves(p.catalog, pub.doc.key, NewRow(ReplacedTable(p.table, pub.doc.key, pub.items), pub.doc, pub.doc.time, now), k);
  }

  lemma PublishRowLeaves(c: Catalog, at: DocKey, row: CatalogRow, k: DocKey)
    requires at != k
    ensures var d := PublishRow(c, at, row);
            (k in d <==> k in c) && (k in c ==> d[k] == c[k])
  {
  }

  lemma SameListingTransitive(a: Db, b: Db, c: Db, model: string, k: DocKey)
    requires model in a.profiles && model in b.profiles && model in c.profiles
    requires SameListing(a, b, model, k) && SameListing(b, c, model, k)
    ensures SameListing(a, c, model, k)
  {
    forall x: string ensures Ref(model, k, x) in a.refs <==> Ref(model, k, x) in c.refs {
      assert Ref(model, k, x) in a.refs <==> Ref(model, k, x) in b.refs;
    }
  }

  lemma {:induction false} RangeLeaves(db: Db, model: string, pubs: seq<Pub>, n: nat, k: DocKey, clock: Clock)
    requires n <= |pubs| && model in db.profiles && Unrepeated(pubs) && WarmInv(db, model, pubs)
    requires forall i :: 0 <= i < n ==> pubs[i].doc.key != k
    ensures var r := PublishRange(db, model, pubs, 0, n, clock);
            WarmInv(r, model, pubs) && SameListing(r, db, model, k)
    decreases n
  {
    hide PublishOne, Unrepeated, WarmInv, SameListing;
    if n == 0 {
      SameListingItself(db, model, k);
    } else {
      RangeLeaves(db, model, pubs, n - 1, k, clock);
      var d := PublishRange(db, model, pubs, 0, n - 1, clock);
      PublishKeepsWarmInv(d, model, pubs, n - 1, clock(n - 1));
      PublishLeaves(d, model, pubs, n - 1, k, clock(n - 1));
      SameListingTransitive(PublishOne(d, model, pubs[n - 1], clock(n - 1)), d, db, model, k);
    }
  }

  lemma SameListingItself(db: Db, model: string, k: DocKey)
    requires model in db.profiles
    ensures SameListing(db, db, model, k)
  {
  }

  lemma TryLeaves(w: Client, model: string, copies: seq<Copy>, start: State, s: State,
                  k: nat, e: nat, a: Attempt, key: DocKey, clock: Clock)
    requires model in start.db.profiles && Reaches(copies, a) && Unrepeated(Goal(w, start.cache, copies))
    requires Progress(w, model, copies, start, s, k, e, clock)
    requires SparedBy(copies, a.published, key)
    ensures SameListing(Try(w, model, copies, s, a).db, s.db, model, key)
  {
    hide PublishRange, PublishOne, ListedUpTo, Alike, Unrepeated, Fill, Texts, SameListing;
    var pubs := Goal(w, start.cache, copies);
    TryDb(w, model, copies, start, s, e, a);
    StatusKeepsInv(s.db, model, pubs, k, Warming);
    RangeLeaves(SetStatus(s.db, model, Warming), model, pubs, a.published, key, a.clock);
    StatusLeaves(s.db, model, Warming, key);
    SameListingTransitive(Try(w, model, copies, s, a).db, SetStatus(s.db, model, Warming), s.db, model, key);
  }

  lemma StatusLeaves(db: Db, model: string, status: Status, k: DocKey)
    requires model in db.profiles
    ensures SameListing(SetStatus(db, model, status), db, model, k)
  {
  }

  /** No attempt got as far as this document. */
  ghost predicate Spared(copies: seq<Copy>, attempts: seq<Attempt>, key: DocKey) {
    forall i :: 0 <= i < |attempts| ==> SparedBy(copies, attempts[i].published, key)
  }

  ghost predicate SparedBy(copies: seq<Copy>, n: nat, key: DocKey) {
    n <= |copies| && forall j :: 0 <= j < n ==> copies[j].doc.key != key
  }

  lemma {:induction false} AttemptsLeave(w: Client, model: string, copies: seq<Copy>, start: State,
                                         attempts: seq<Attempt>, key: DocKey)
    requires model in start.db.profiles && (forall i :: 0 <= i < |attempts| ==> Reaches(copies, attempts[i]))
    requires Unrepeated(Goal(w, start.cache, copies)) && WarmInv(start.db, model, Goal(w, start.cache, copies))
    requires Spared(copies, attempts, key)
    ensures SameListing(TryAll(w, model, copies, start, attempts).db, start.db, model, key)
  {
    hide Progress, Try, Unrepeated, WarmInv, Goal, SameListing, SparedBy, Reaches;
    if attempts == [] {
      SameListingItself(start.db, model, key);
    } else {
      var n := |attempts| - 1;
      var clock: Clock := i => 0;
      AttemptsLeave(w, model, copies, start, attempts[..n], key);
      var k, e := AttemptsProgress(w, model, copies, start, attempts[..n], clock);
      var before := TryAll(w, model, copies, start, attempts[..n]);
      TryLeaves(w, model, copies, start, before, k, e, attempts[n], key, clock);
      SameListingTransitive(Try(w, model, copies, before, attempts[n]).db, before.db, start.db, model, key);
    }
  }

  /** Each document is completely published or just as it was, and documents outside the warm
      are as they were. */
  ghost predicate OldOrNew(w: Client, model: string, copies: seq<Copy>, start: State, s: State)
    requires model in start.db.profiles && model in s.db.profiles
  {
    var pubs := Goal(w, start.cache, copies);
    && (forall i :: 0 <= i < |pubs| ==> Settled(s.db, model, pubs[i]) || Untouched(s.db, start.db, model, pubs[i].doc.key))
    && (forall key :: (forall i :: 0 <= i < |pubs| ==> pubs[i].doc.key != key) ==> Untouched(s.db, start.db, model, key))
  }

  /** After any failed attempts the profile is still warming; and where the documents take no
      chunk keys from each other or from other documents, each of them is wholly old or wholly
      new. */
  lemma FailureIsAtomic(w: Client, model: string, copies: seq<Copy>, start: State, attempts: seq<Attempt>)
    requires model in start.db.profiles && (forall i :: 0 <= i < |attempts| ==> Reaches(copies, attempts[i])) && attempts != []
    requires Unrepeated(Goal(w, start.cache, copies)) && WarmInv(start.db, model, Goal(w, start.cache, copies))
    ensures var pubs := Goal(w, start.cache, copies);
            var s := TryAll(w, model, copies, start, attempts);
            && s.db.profiles[model].status == Warming
            && (PubsProper(pubs) && Apart(pubs) && Clear(start.db.profiles[model].table, pubs) ==> OldOrNew(w, model, copies, start, s))
  {
    hide Try, TryAll, WarmInv, PubsProper, Unrepeated, Apart, Clear, OldOrNew, Progress, Goal, Reaches;
    var clock: Clock := i => 0;
    var k, e := AttemptsProgress(w, model, copies, start, attempts, clock);
    var pubs := Goal(w, start.cache, copies);
    if PubsProper(pubs) && Apart(pubs) && Clear(start.db.profiles[model].table, pubs) {
      AttemptsAtomic(w, model, copies, start, attempts, k, e, clock);
    }
  }

  lemma AttemptsAtomic(w: Client, model: string, copies: seq<Copy>, start: State, attempts: seq<Attempt>, k: nat, e: nat, clock: Clock)
    requires model in start.db.profiles && (forall i :: 0 <= i < |attempts| ==> Reaches(copies, attempts[i]))
    requires PubsProper(Goal(w, start.cache, copies)) && WarmInv(start.db, model, Goal(w, start.cache, copies))
    requires Apart(Goal(w, start.cache, copies)) && Clear(start.db.profiles[model].table, Goal(w, start.cache, copies))
    requires Progress(w, model, copies, start, TryAll(w, model, copies, start, attempts), k, e, clock)
    requires (forall i :: 0 <= i < |attempts| ==> attempts[i].published <= k) && (k == 0 || exists i :: 0 <= i < |attempts| && attempts[i].published == k)
    ensures OldOrNew(w, model, copies, start, TryAll(w, model, copies, start, attempts))
  {
    hide Try, TryAll, WarmInv, Apart, Clear, Settled, ListedSettled, Alike, PublishRange, Goal, SameRowsOf, SameListing, RowsSettled, Reached, TableAfterAll;
    var pubs := Goal(w, start.cache, copies);
    var s := TryAll(w, model, copies, start, attempts);
    var t, u := start.db.profiles[model].table, s.db.profiles[model].table;
    GoalLength(w, start.cache, copies);
    ProperIsUnrepeated(pubs);
    TryAllTable(w, model, copies, start, attempts);
    var k' := AttemptsSettle(t, pubs, Reached(attempts));
    assert k' == k;
    forall i | 0 <= i < |pubs| ensures Settled(s.db, model, pubs[i]) || Untouched(s.db, start.db, model, pubs[i].doc.key) {
      if i < k {
        assert RowsSettled(u, pubs[i]);
        SettledInParts(s.db, model, pubs[i]);
      } else {
        SparedBeyond(copies, attempts, pubs, k, i);
        AttemptsLeave(w, model, copies, start, attempts, pubs[i].doc.key);
      }
    }
    forall key | forall i :: 0 <= i < |pubs| ==> pubs[i].doc.key != key ensures Untouched(s.db, start.db, model, key) {
      SparedOutside(copies, attempts, pubs, key);
      AttemptsLeave(w, model, copies, start, attempts, key);
    }
  }

  lemma SparedBeyond(copies: seq<Copy>, attempts: seq<Attempt>, pubs: seq<Pub>, k: nat, i: nat)
    requires |pubs| == |copies| && (forall j :: 0 <= j < |copies| ==> pubs[j].doc == copies[j].doc) && PubsProper(pubs)
    requires k <= i < |copies| && forall j :: 0 <= j < |attempts| ==> attempts[j].published <= k
    ensures Spared(copies, attempts, pubs[i].doc.key)
    ensures forall j :: 0 <= j < k ==> pubs[j].doc.key != pubs[i].doc.key
  {
    forall j | 0 <= j < i ensures copies[j].doc.key != pubs[i].doc.key {
      assert pubs[j].doc.key != pubs[i].doc.key;
    }
  }

  lemma SparedOutside(copies: seq<Copy>, attempts: seq<Attempt>, pubs: seq<Pub>, key: DocKey)
    requires |pubs| == |copies| && (forall j :: 0 <= j < |copies| ==> pubs[j].doc == copies[j].doc)
    requires forall j :: 0 <= j < |attempts| ==> Reaches(copies, attempts[j])
    requires forall j :: 0 <= j < |pubs| ==> pubs[j].doc.key != key
    ensures Spared(copies, attempts, key)
  {
    forall j | 0 <= j < |copies| ensures copies[j].doc.key != key {
      assert pubs[j].doc.key != key;
    }
  }

  /** While a profile is warming, no run of ordinary ingestion, into whatever profiles, changes
      anything about it: not its chunks, not its catalog, not its status, not its lists. */
  lemma {:induction false} WarmingBlocksPublication(db: Db, model: string, steps: seq<Step>)
    requires model in db.profiles && db.profiles[model].status == Warming
    requires forall i :: 0 <= i < |steps| ==> steps[i].Ingest?
    ensures var r := Run(db, steps);
            && model in r.profiles && r.profiles[model] == db.profiles[model]
            && forall s: Scope :: s.model == model ==> Revision(r, s) == Revision(db, s)
  {
    hide Next, IngestItems;
    if steps != [] {
      var n := |steps| - 1;
      WarmingBlocksPublication(db, model, steps[..n]);
      IngestIntoOther(Run(db, steps[..n]), model, steps[n]);
    }
  }

  lemma IngestIntoOther(db: Db, model: string, step: Step)
    requires model in db.profiles && db.profiles[model].status == Warming && step.Ingest?
    ensures var r := Next(db, step);
            && model in r.profiles && r.profiles[model] == db.profiles[model]
            && forall s: Scope :: s.model == model ==> Revision(r, s) == Revision(db, s)
  {
    hide IngestItems, ReplaceWritten;
    if step.model in db.profiles && step.model != model {
      ReplaceEffect(db, step.model, step.doc, IngestItems(step.doc, step.chunks), step.assets, false, step.now);
    }
  }

  // ---- The listing and the warm fit together ----------------------------------------------------------

  /** No listed row stores the empty string for its chunking profile. */
  ghost predicate NoEmptyNames(t: Table, ids: seq<RowId>) {
    forall id :: id in ids && id in t && t[id].metadata.Object? ==> t[id].metadata.p.chunking != Str("")
  }

  /** Whatever is listed can be published, again and again; and each chunk is filed under the
      document it is listed for exactly if no listed row stores an empty chunking profile. */
  lemma ListingIsPublishable(db: Db, source: string, target: string, workspace: string, rows: seq<DocKey>,
                             ids: seq<RowId>, clean: Cleaner, copies: seq<Copy>, w: Client, cache: Cache)
    requires source in db.profiles && target in db.profiles && Homed(db)
    requires Lists(db, source, workspace, rows, ids, clean, copies)
    requires Certification.Distinct(rows) && forall k :: k in rows <==> k in CatalogKeys(db.profiles[source].catalog, workspace)
    requires forall id :: id in ids <==> id in SelectedIds(db.profiles[source].table, workspace)
    ensures Unrepeated(Pubs(w, cache, copies)) && WarmInv(db, target, Pubs(w, cache, copies))
    ensures PubsProper(Pubs(w, cache, copies)) <==> NoEmptyNames(db.profiles[source].table, ids)
  {
    hide ItemsBelong, Named, Embedded;
    var p := db.profiles[source];
    var keys := WarmSource.Keys(p, workspace, rows, ids, |ids|, clean);
    LegibleByIndex(p.table, workspace, ids);
    KeysDistinct(p, workspace, rows, ids, |ids|, clean);
    forall i | 0 <= i < |copies|
      ensures copies[i].doc.key == keys[i] && AssetsKnown(db, PubOf(w, cache, copies[i]))
      ensures ItemsBelong(Embedded(w, cache, copies[i].chunks), keys[i]) <==> Named(p.table, workspace, ids, |ids|, keys[i])
    {
      EntryBelongs(p, workspace, ids, |ids|, keys[i], clean);
      EmbeddedBelongs(w, cache, copies[i].chunks, keys[i]);
    }
    AllNamed(p, workspace, rows, ids, clean);
  }

  /** Every listed row has its document among the keys. */
  lemma AllNamed(p: Profile, workspace: string, rows: seq<DocKey>, ids: seq<RowId>, clean: Cleaner)
    requires forall k :: k in rows <==> k in CatalogKeys(p.catalog, workspace)
    requires forall i :: 0 <= i < |ids| ==> LegibleAt(p.table, workspace, ids[i])
    ensures (forall k :: k in WarmSource.Keys(p, workspace, rows, ids, |ids|, clean) ==> Named(p.table, workspace, ids, |ids|, k))
       <==> NoEmptyNames(p.table, ids)
  {
    var keys := WarmSource.Keys(p, workspace, rows, ids, |ids|, clean);
    if forall k :: k in keys ==> Named(p.table, workspace, ids, |ids|, k) {
      forall id | id in ids ensures p.table[id].metadata.p.chunking != Str("") {
        var n :| 0 <= n < |ids| && ids[n] == id;
        ListedKey(p, workspace, rows, ids, clean, n);
        assert Named(p.table, workspace, ids, |ids|, SourceKey(workspace, p.table[id].metadata.p));
      }
    }
  }

  lemma EmbeddedBelongs(w: Client, cache: Cache, chunks: seq<Item>, k: DocKey)
    ensures ItemsBelong(Embedded(w, cache, chunks), k) <==> ItemsBelong(chunks, k)
  {
    var items := Embedded(w, cache, chunks);
    forall i | 0 <= i < |chunks| ensures SqlGroup(ItemRow(items[i]).metadata) == SqlGroup(ItemRow(chunks[i]).metadata) {
    }
  }

  /** With an owner for every identity, what is listed also takes nothing from anybody. */
  lemma OwnedListingIsApart(owner: Owner, db: Db, source: string, target: string, workspace: string, rows: seq<DocKey>,
                            ids: seq<RowId>, clean: Cleaner, copies: seq<Copy>, w: Client, cache: Cache)
    requires source in db.profiles && target in db.profiles && Sound(owner, db) && AllChunked(db) && Homed(db)
    requires Lists(db, source, workspace, rows, ids, clean, copies) && PlainWorkspace(db.profiles[source].table, workspace)
    requires Certification.Distinct(rows) && forall k :: k in rows <==> k in CatalogKeys(db.profiles[source].catalog, workspace)
    requires forall id :: id in ids <==> id in SelectedIds(db.profiles[source].table, workspace)
    ensures var pubs := Pubs(w, cache, copies);
            Apart(pubs) && Clear(db.profiles[target].table, pubs)
  {
    hide Lists, AllChunked, Homed, PubsProper, WarmInv, ItemsSound, TableSound;
    var p := db.profiles[source];
    var pubs := Pubs(w, cache, copies);
    ListingIsPublishable(db, source, target, workspace, rows, ids, clean, copies, w, cache);
    assert RowsKeep(Chunked, p.table) by {
      ChunkedTable(db, source);
    }
    ListedAreChunked(p.table, ids);
    forall i | 0 <= i < |copies| ensures ItemsSound(owner, pubs[i].items, pubs[i].doc.key) {
      OwnedCopy(owner, db, source, workspace, rows, ids, clean, copies, i);
      EmbeddedSound(owner, w, cache, copies[i].chunks, copies[i].doc.key);
    }
    assert TableSound(owner, db.profiles[target].table);
    OwnedAreApart(owner, db.profiles[target].table, pubs);
  }

  lemma ChunkedTable(db: Db, source: string)
    requires source in db.profiles && AllChunked(db)
    ensures RowsKeep(Chunked, db.profiles[source].table)
  {
  }

  lemma ListedAreChunked(t: Table, ids: seq<RowId>)
    requires RowsKeep(Chunked, t)
    ensures NoEmptyNames(t, ids)
  {
    forall id | id in t && t[id].metadata.Object? ensures t[id].metadata.p.chunking != Str("") {
      assert Chunked(id, t[id].metadata);
    }
  }

  lemma OwnedCopy(owner: Owner, db: Db, source: string, workspace: string, rows: seq<DocKey>, ids: seq<RowId>, clean: Cleaner,
                  copies: seq<Copy>, i: nat)
    requires source in db.profiles && Sound(owner, db) && i < |copies|
    requires Lists(db, source, workspace, rows, ids, clean, copies) && PlainWorkspace(db.profiles[source].table, workspace)
    ensures ItemsSound(owner, copies[i].chunks, copies[i].doc.key)
  {
    var p := db.profiles[source];
    var k := WarmSource.Keys(p, workspace, rows, ids, |ids|, clean)[i];
    EntrySound(owner, p, workspace, ids, |ids|, k, clean);
    assert Listed(db, source, k, EntryOf(p, workspace, ids, |ids|, k, clean), copies[i]);
  }

  lemma EmbeddedSound(owner: Owner, w: Client, cache: Cache, chunks: seq<Item>, k: DocKey)
    requires ItemsSound(owner, chunks, k)
    ensures ItemsSound(owner, Embedded(w, cache, chunks), k)
  {
  }

  lemma OwnedAreApart(owner: Owner, t: Table, pubs: seq<Pub>)
    requires TableSound(owner, t) && PubsProper(pubs)
    requires forall i :: 0 <= i < |pubs| ==> ItemsSound(owner, pubs[i].items, pubs[i].doc.key)
    ensures Apart(pubs) && Clear(t, pubs)
  {
    hide ItemsBelong;
    forall i, j, id | 0 <= i < j < |pubs| && id in ItemIds(pubs[i].items) ensures id !in ItemIds(pubs[j].items) {
      OwnedIdsDiffer(owner, pubs[i], pubs[j], id);
    }
    forall i, id | 0 <= i < |pubs| && id in ItemIds(pubs[i].items) && id in t && SqlGroup(t[id].metadata).Some?
      ensures Replaces(pubs, i + 1, t[id].metadata)
    {
      SoundItemsOverwriteNothing(owner, t, pubs[i].items, pubs[i].doc.key);
      var n :| 0 <= n < |pubs[i].items| && ItemId(pubs[i].items[n]) == id;
    }
  }

  lemma OwnedIdsDiffer(owner: Owner, a: Pub, b: Pub, id: RowId)
    requires ItemsSound(owner, a.items, a.doc.key) && ItemsSound(owner, b.items, b.doc.key) && a.doc.key != b.doc.key
    requires id in ItemIds(a.items)
    ensures id !in ItemIds(b.items)
  {
    if id in ItemIds(b.items) {
      var i :| 0 <= i < |a.items| && ItemId(a.items[i]) == id;
      var j :| 0 <= j < |b.items| && ItemId(b.items[j]) == id;
      var m, n := ItemRow(a.items[i]).metadata, ItemRow(b.items[j]).metadata;
      FirstFieldUnique(m.p.workspace.s, m.p.chunkId.value, n.p.workspace.s, n.p.chunkId.value, ':');
      assert false;
    }
  }

  lemma ListedAssetsKnown(db: Db, source: string, workspace: string, rows: seq<DocKey>, ids: seq<RowId>, clean: Cleaner,
                          copies: seq<Copy>, w: Client, cache: Cache, i: nat)
    requires source in db.profiles && i < |copies| && Lists(db, source, workspace, rows, ids, clean, copies)
    ensures AssetsKnown(db, PubOf(w, cache, copies[i]))
  {
    var p := db.profiles[source];
    var k := WarmSource.Keys(p, workspace, rows, ids, |ids|, clean)[i];
    EntryKey(p, workspace, ids, |ids|, k, clean);
    assert Listed(db, source, k, EntryOf(p, workspace, ids, |ids|, k, clean), copies[i]);
  }

  lemma PublicationKeepsListing(db: Db, source: string, target: string, workspace: string, rows: seq<DocKey>, ids: seq<RowId>,
                                clean: Cleaner, copies: seq<Copy>, w: Client, cache: Cache, i: nat, now: int)
    requires source in db.profiles && target in db.profiles && source != target && i < |copies|
    requires Lists(db, source, workspace, rows, ids, clean, copies)
    ensures var r := PublishOne(db, target, PubOf(w, cache, copies[i]), now);
            source in r.profiles && Lists(r, source, workspace, rows, ids, clean, copies)
  {
    hide ReplaceWritten, Lists;
    var pub := PubOf(w, cache, copies[i]);
    var r := PublishOne(db, target, pub, now);
    ListedAssetsKnown(db, source, workspace, rows, ids, clean, copies, w, cache, i);
    ReplaceEffect(db, target, pub.doc, pub.items, pub.assets, true, now);
    PublishOneShared(db, target, pub, now);
    ListingKept(db, r, source, target, workspace, rows, ids, clean, copies, i);
  }

  lemma {:induction false} RangeKeepsListing(db: Db, source: string, target: string, workspace: string, rows: seq<DocKey>,
                                             ids: seq<RowId>, clean: Cleaner, copies: seq<Copy>, w: Client, cache: Cache,
                                             n: nat, clock: Clock)
    requires source in db.profiles && target in db.profiles && source != target && n <= |copies|
    requires Lists(db, source, workspace, rows, ids, clean, copies)
    ensures var r := PublishRange(db, target, Pubs(w, cache, copies), 0, n, clock);
            source in r.profiles && Lists(r, source, workspace, rows, ids, clean, copies)
    decreases n
  {
    hide PublishOne, Lists;
    if n > 0 {
      RangeKeepsListing(db, source, target, workspace, rows, ids, clean, copies, w, cache, n - 1, clock);
      PublicationKeepsListing(PublishRange(db, target, Pubs(w, cache, copies), 0, n - 1, clock),
                              source, target, workspace, rows, ids, clean, copies, w, cache, n - 1, clock(n - 1));
    }
  }

  /** Warming another profile, however often it fails, leaves the listing of the source as it
      was: a retry reads the same documents again. */
  lemma {:induction false} ListingSurvives(source: string, target: string, workspace: string, rows: seq<DocKey>,
                                           ids: seq<RowId>, clean: Cleaner, copies: seq<Copy>, w: Client, start: State,
                                           attempts: seq<Attempt>)
    requires source in start.db.profiles && target in start.db.profiles && source != target
    requires forall i :: 0 <= i < |attempts| ==> Reaches(copies, attempts[i])
    requires Lists(start.db, source, workspace, rows, ids, clean, copies)
    ensures var r := TryAll(w, target, copies, start, attempts).db;
            source in r.profiles && Lists(r, source, workspace, rows, ids, clean, copies)
  {
    hide Lists, Reaches, PublishRange;
    if attempts != [] {
      var n := |attempts| - 1;
      ListingSurvives(source, target, workspace, rows, ids, clean, copies, w, start, attempts[..n]);
      var s := TryAll(w, target, copies, start, attempts[..n]);
      StatusKeepsListing(s.db, source, target, workspace, rows, ids, clean, copies);
      TryReaches(copies, attempts[n]);
      RangeKeepsListing(SetStatus(s.db, target, Warming), source, target, workspace, rows, ids, clean, copies, w,
                        Fill(w, s.cache, AllTexts(copies), attempts[n].embedded), attempts[n].published, attempts[n].clock);
    }
  }

  lemma TryReaches(copies: seq<Copy>, a: Attempt)
    requires Reaches(copies, a)
    ensures a.published <= |copies| && a.embedded <= |AllTexts(copies)|
  {
  }

  lemma StatusKeepsListing(db: Db, source: string, target: string, workspace: string, rows: seq<DocKey>, ids: seq<RowId>,
                           clean: Cleaner, copies: seq<Copy>)
    requires source in db.profiles && target in db.profiles && source != target
    requires Lists(db, source, workspace, rows, ids, clean, copies)
    ensures Lists(SetStatus(db, target, Warming), source, workspace, rows, ids, clean, copies)
  {
    var p := db.profiles[source];
    var keys := WarmSource.Keys(p, workspace, rows, ids, |ids|, clean);
    forall j | 0 <= j < |copies|
      ensures Listed(SetStatus(db, target, Warming), source, keys[j], EntryOf(p, workspace, ids, |ids|, keys[j], clean), copies[j])
    {
      assert Listed(db, source, keys[j], EntryOf(p, workspace, ids, |ids|, keys[j], clean), copies[j]);
    }
  }

  lemma ListingKept(db: Db, r: Db, source: string, target: string, workspace: string, rows: seq<DocKey>, ids: seq<RowId>,
                    clean: Cleaner, copies: seq<Copy>, i: nat)
    requires source in db.profiles && source != target && source in r.profiles && r.profiles[source] == db.profiles[source]
    requires i < |copies| && Lists(db, source, workspace, rows, ids, clean, copies)
    requires SharedAfter(r, db, target, Pub(copies[i].doc, [], copies[i].assets))
    ensures Lists(r, source, workspace, rows, ids, clean, copies)
  {
    var p := db.profiles[source];
    var keys := WarmSource.Keys(p, workspace, rows, ids, |ids|, clean);
    forall j | 0 <= j < |copies|
      ensures Listed(r, source, keys[j], EntryOf(p, workspace, ids, |ids|, keys[j], clean), copies[j])
    {
      var e := EntryOf(p, workspace, ids, |ids|, keys[j], clean).value;
      assert Listed(db, source, keys[j], Some(e), copies[j]);
      SameWanted(db, r, source, target, copies[i], keys[j], e);
      EntryKey(p, workspace, ids, |ids|, keys[i], clean);
      assert Listed(db, source, keys[i], EntryOf(p, workspace, ids, |ids|, keys[i], clean), copies[i]);
      KeptAssets(db, r, target, copies[i], keys[j], AssetNames(copies[j].assets));
    }
  }

  lemma SameWanted(db: Db, r: Db, source: string, target: string, copy: Copy, k: DocKey, e: Entry)
    requires source != target && SharedAfter(r, db, target, Pub(copy.doc, [], copy.assets))
    ensures Wanted(r, source, k, e) == Wanted(db, source, k, e)
  {
    assert RefAssets(r, source, k) == RefAssets(db, source, k);
  }

  lemma {:induction false} EntryKey(p: Profile, workspace: string, ids: seq<RowId>, n: nat, k: DocKey, clean: Cleaner)
    requires n <= |ids|
    ensures EntryOf(p, workspace, ids, n, k, clean).Some? ==> EntryOf(p, workspace, ids, n, k, clean).value.doc.key == k
  {
    if n > 0 {
      EntryKey(p, workspace, ids, n - 1, k, clean);
    }
  }

  /** A publication prunes no asset that another listed document, or its own, wants. */
  lemma KeptAssets(db: Db, r: Db, target: string, copy: Copy, k: DocKey, wanted: set<string>)
    requires SharedAfter(r, db, target, Pub(copy.doc, [], copy.assets))
    requires Available(db, k, wanted) && (k == copy.doc.key ==> wanted == AssetNames(copy.assets))
    ensures Available(r, k, wanted) && forall a :: a in wanted ==> r.assets[a] == db.assets[a]
  {
    forall a | a in wanted ensures a in r.assets {
      if k == copy.doc.key {
        assert Ref(target, k, a) in r.refs;
        assert Referenced(r, a);
      }
    }
  }
}
