/** The warmer's loop, in place: estimate, embed, publish, and the status it leaves. */
module Warmer {
  import opened Text
  import opened ChunkIdentity
  import opened Store
  import opened Reconcile
  import opened EmbeddingCache
  import opened Republication
  import opened Publication
  import opened WarmSource
  import opened Warming

  // ---- A document's texts inside all texts --------------------------------------------------

  /** A slice of a long list of texts, sent through the cache by itself. */
  lemma {:induction false} FillSlice(w: Client, cache: Cache, all: seq<string>, off: nat, texts: seq<string>, n: nat)
    requires n <= |texts| && off + |texts| <= |all| && all[off..off + |texts|] == texts
    ensures Fill(w, Fill(w, cache, all, off), texts, n) == Fill(w, cache, all, off + n)
    ensures Misses(w, cache, all, off) + Misses(w, Fill(w, cache, all, off), texts, n) == Misses(w, cache, all, off + n)
  {
    if n > 0 {
      FillSlice(w, cache, all, off, texts, n - 1);
      assert texts[n - 1] == all[off + n - 1];
    }
  }

  lemma EmbedSlice(w: Client, cache: Cache, all: seq<string>, off: nat, texts: seq<string>, n: nat)
    requires n <= |texts| && off + |texts| <= |all| && all[off..off + |texts|] == texts
    ensures AllEmbed(w, cache, all, off + n) <==> AllEmbed(w, cache, all, off) && AllEmbed(w, Fill(w, cache, all, off), texts, n)
  {
    hide Fill, Embeds;
    forall i | 0 <= i < n
      ensures Embeds(w, Fill(w, cache, all, off + i), all[off + i]) <==> Embeds(w, Fill(w, Fill(w, cache, all, off), texts, i), texts[i])
    {
      FillSlice(w, cache, all, off, texts, i);
      assert texts[i] == all[off + i];
    }
    if AllEmbed(w, cache, all, off) && AllEmbed(w, Fill(w, cache, all, off), texts, n) {
      forall j | 0 <= j < off + n ensures Embeds(w, Fill(w, cache, all, j), all[j]) {
        assert j >= off ==> Embeds(w, Fill(w, cache, all, off + (j - off)), all[off + (j - off)]);
      }
    }
  }

  lemma DocumentSlice(copies: seq<Copy>, i: nat)
    requires i < |copies|
    ensures var off := |Texts(copies, i)|;
            var texts := ChunkTexts(copies[i].chunks);
            && |Texts(copies, i + 1)| == off + |texts|
            && off + |texts| <= |AllTexts(copies)| && AllTexts(copies)[off..off + |texts|] == texts
  {
    TextsPrefix(copies, i + 1, |copies|);
    var off := |Texts(copies, i)|;
    assert Texts(copies, i + 1) == Texts(copies, i) + ChunkTexts(copies[i].chunks);
    assert AllTexts(copies)[..|Texts(copies, i + 1)|] == Texts(copies, i + 1);
  }

  function WithVectors(chunks: seq<Item>, vectors: seq<Vector>): (items: seq<Item>)
    requires |chunks| == |vectors|
    ensures |items| == |chunks|
    ensures forall i :: 0 <= i < |chunks| ==> items[i] == chunks[i].(vector := vectors[i])
  {
    if chunks == [] then [] else [chunks[0].(vector := vectors[0])] + WithVectors(chunks[1..], vectors[1..])
  }

  lemma ReadIsEmbedded(w: Client, cache: Cache, chunks: seq<Item>, vectors: seq<Vector>)
    requires |vectors| == |chunks| && Reads(w, cache, ChunkTexts(chunks), vectors)
    ensures WithVectors(chunks, vectors) == Embedded(w, cache, chunks)
  {
  }

  lemma PubOfGoal(w: Client, cache: Cache, copies: seq<Copy>, i: nat)
    requires i < |copies|
    ensures |Texts(copies, i + 1)| <= |AllTexts(copies)|
    ensures PubOf(w, Fill(w, cache, AllTexts(copies), |Texts(copies, i + 1)|), copies[i]) == Goal(w, cache, copies)[i]
  {
    TextsPrefix(copies, i + 1, |copies|);
    PubsUpTo(w, cache, copies, i + 1, |Texts(copies, i + 1)|);
  }

  // ---- The loop ------------------------------------------------------------------------------

  /** All texts can be embedded with so many provider calls. */
  ghost predicate Completes(w: Client, cache: Cache, texts: seq<string>, budget: nat) {
    AllEmbed(w, cache, texts, |texts|) && Misses(w, cache, texts, |texts|) <= budget
  }

  /** Embed one document completely, then publish it; nothing is published after a failure. */
  method WarmDocument(db: Database, client: CachedClient, model: string, copy: Copy, now: int)
    returns (ok: bool, ghost embedded: nat)
    requires model in db.profiles
    modifies db, client, client.cache
    ensures embedded <= |copy.chunks| && (ok <==> embedded == |copy.chunks|)
    ensures client.cache.values == Fill(client.w, old(client.cache.values), ChunkTexts(copy.chunks), embedded)
    ensures client.calls == old(client.calls) + Spent(client.w, old(client.cache.values), ChunkTexts(copy.chunks), embedded, old(client.budget))
    ensures client.budget == old(client.budget) - (client.calls - old(client.calls))
    ensures ok <==> Completes(client.w, old(client.cache.values), ChunkTexts(copy.chunks), old(client.budget))
    ensures db.Snapshot() == if ok then PublishOne(old(db.Snapshot()), model, PubOf(client.w, client.cache.values, copy), now) else old(db.Snapshot())
  {
    var vectors;
    vectors, ok := client.EmbedAll(ChunkTexts(copy.chunks));
    embedded := |vectors|;
    if ok {
      ReadIsEmbedded(client.w, client.cache.values, copy.chunks, vectors);
      var outcome := db.ReplaceDocument(model, copy.doc, WithVectors(copy.chunks, vectors), copy.assets, true, now);
    }
  }

  /** The loop so far: `i` documents published, their texts cached and paid for. */
  ghost predicate Warmed(w: Client, model: string, copies: seq<Copy>, start: State, s: State, i: nat, calls: nat, clock: Clock)
    requires model in start.db.profiles && i <= |copies|
  {
    && |Texts(copies, i)| <= |AllTexts(copies)|
    && s.cache == Fill(w, start.cache, AllTexts(copies), |Texts(copies, i)|)
    && AllEmbed(w, start.cache, AllTexts(copies), |Texts(copies, i)|)
    && calls == Misses(w, start.cache, AllTexts(copies), |Texts(copies, i)|)
    && s.db == PublishRange(SetStatus(start.db, model, Warming), model, Goal(w, start.cache, copies), 0, i, clock)
  }

  lemma WarmedOneMore(w: Client, model: string, copies: seq<Copy>, start: State, s: State, i: nat, calls: nat, clock: Clock,
                      cache: Cache, more: nat)
    requires model in start.db.profiles && i < |copies| && Warmed(w, model, copies, start, s, i, calls, clock)
    requires model in s.db.profiles && AllEmbed(w, s.cache, ChunkTexts(copies[i].chunks), |copies[i].chunks|)
    requires cache == Fill(w, s.cache, ChunkTexts(copies[i].chunks), |copies[i].chunks|)
    requires more == Misses(w, s.cache, ChunkTexts(copies[i].chunks), |copies[i].chunks|)
    ensures Warmed(w, model, copies, start, State(cache, PublishOne(s.db, model, PubOf(w, cache, copies[i]), clock(i))),
                   i + 1, calls + more, clock)
  {
    hide PublishOne, Fill, Misses, Texts, Pubs, AllEmbed;
    DocumentSlice(copies, i);
    EmbedSlice(w, start.cache, AllTexts(copies), |Texts(copies, i)|, ChunkTexts(copies[i].chunks), |copies[i].chunks|);
    FillSlice(w, start.cache, AllTexts(copies), |Texts(copies, i)|, ChunkTexts(copies[i].chunks), |copies[i].chunks|);
    PubOfGoal(w, start.cache, copies, i);
  }

  /** A loop that stops inside document `i` is an attempt. */
  lemma StoppedHere(w: Client, model: string, copies: seq<Copy>, start: State, s: State, i: nat, calls: nat, clock: Clock,
                    embedded: nat, budget: nat)
    requires model in start.db.profiles && i < |copies| && Warmed(w, model, copies, start, s, i, calls, clock)
    requires embedded < |copies[i].chunks| && calls <= budget
    ensures var a := Attempt(i, |Texts(copies, i)| + embedded, clock);
            && Reaches(copies, a)
            && State(Fill(w, s.cache, ChunkTexts(copies[i].chunks), embedded), s.db) == Try(w, model, copies, start, a)
            && a.embedded < |AllTexts(copies)|
            && calls + Spent(w, s.cache, ChunkTexts(copies[i].chunks), embedded, budget - calls)
               == Spent(w, start.cache, AllTexts(copies), a.embedded, budget)
  {
    hide PublishRange, Misses, Texts, Pubs, PublishOne, Goal, Fill, AllEmbed;
    DocumentSlice(copies, i);
    FillSlice(w, start.cache, AllTexts(copies), |Texts(copies, i)|, ChunkTexts(copies[i].chunks), embedded);
    FillSlice(w, start.cache, AllTexts(copies), |Texts(copies, i)|, ChunkTexts(copies[i].chunks), embedded + 1);
    TryFromStart(w, model, copies, start, Attempt(i, |Texts(copies, i)| + embedded, clock));
  }

  lemma AllWarmed(w: Client, model: string, copies: seq<Copy>, start: State, s: State, calls: nat, clock: Clock)
    requires model in start.db.profiles && Warmed(w, model, copies, start, s, |copies|, calls, clock)
    ensures s == Try(w, model, copies, start, Whole(copies, clock))
    ensures calls == Misses(w, start.cache, AllTexts(copies), |AllTexts(copies)|)
    ensures AllEmbed(w, start.cache, AllTexts(copies), |AllTexts(copies)|)
  {
    TryFromStart(w, model, copies, start, Whole(copies, clock));
  }

  /** Where one document cannot be embedded with the calls that are left, all of them cannot. */
  lemma CannotFinish(w: Client, model: string, copies: seq<Copy>, start: State, s: State, i: nat, calls: nat, clock: Clock, budget: nat)
    requires model in start.db.profiles && i < |copies| && Warmed(w, model, copies, start, s, i, calls, clock)
    requires calls <= budget && !Completes(w, s.cache, ChunkTexts(copies[i].chunks), budget - calls)
    ensures !Completes(w, start.cache, AllTexts(copies), budget)
  {
    hide PublishRange, Goal, Fill, Misses, Texts, AllEmbed;
    TextsPrefix(copies, i + 1, |copies|);
    DocumentSlice(copies, i);
    EmbedSlice(w, start.cache, AllTexts(copies), |Texts(copies, i)|, ChunkTexts(copies[i].chunks), |copies[i].chunks|);
    if AllEmbed(w, start.cache, AllTexts(copies), |AllTexts(copies)|) {
      FewerEmbed(w, start.cache, AllTexts(copies), |Texts(copies, i + 1)|, |AllTexts(copies)|);
    }
    FillSlice(w, start.cache, AllTexts(copies), |Texts(copies, i)|, ChunkTexts(copies[i].chunks), |copies[i].chunks|);
    MissesGrow(w, start.cache, AllTexts(copies), |Texts(copies, i + 1)|, |AllTexts(copies)|);
  }

  lemma FewerEmbed(w: Client, cache: Cache, texts: seq<string>, m: nat, n: nat)
    requires m <= n <= |texts| && AllEmbed(w, cache, texts, n)
    ensures AllEmbed(w, cache, texts, m)
  {
    hide Fill, Embeds;
  }

  method WarmAll(db: Database, client: CachedClient, model: string, copies: seq<Copy>, clock: Clock)
    returns (ok: bool, ghost a: Attempt)
    requires model in db.profiles
    modifies db, client, client.cache
    ensures Reaches(copies, a)
    ensures var start := State(old(client.cache.values), old(db.Snapshot()));
            State(client.cache.values, db.Snapshot())
              == if ok then Complete(client.w, model, copies, start, clock) else Try(client.w, model, copies, start, a)
    ensures a.embedded <= |AllTexts(copies)|
    ensures client.calls == old(client.calls) + Spent(client.w, old(client.cache.values), AllTexts(copies), a.embedded, old(client.budget))
    ensures ok ==> a == Whole(copies, clock)
    ensures ok <==> Completes(client.w, old(client.cache.values), AllTexts(copies), old(client.budget))
  {
    hide Warmed, PublishOne, PublishRange, Fill, Misses, Texts, Reaches, Pubs, AllEmbed, Spent;
    ghost var w, start := client.w, State(client.cache.values, db.Snapshot());
    db.SetProfileStatus(model, Store.Status.Warming);
    a := Whole(copies, clock);
    var i := 0;
    AtStart(w, model, copies, start, clock);
    while i < |copies|
      invariant i <= |copies| && model in db.profiles
      invariant client.calls >= old(client.calls) && client.budget == old(client.budget) - (client.calls - old(client.calls))
      invariant Warmed(w, model, copies, start, State(client.cache.values, db.Snapshot()), i, client.calls - old(client.calls), clock)
    {
      ghost var s, calls := State(client.cache.values, db.Snapshot()), client.calls;
      ghost var embedded;
      ok, embedded := WarmDocument(db, client, model, copies[i], clock(i));
      if !ok {
        StoppedHere(w, model, copies, start, s, i, calls - old(client.calls), clock, embedded, old(client.budget));
        CannotFinish(w, model, copies, start, s, i, calls - old(client.calls), clock, old(client.budget));
        a := Attempt(i, |Texts(copies, i)| + embedded, clock);
        return;
      }
      SpentOnAll(w, s.cache, ChunkTexts(copies[i].chunks), old(client.budget) - (calls - old(client.calls)));
      WarmedOneMore(w, model, copies, start, s, i, calls - old(client.calls), clock, client.cache.values, client.calls - calls);
      i := i + 1;
    }
    AllWarmed(w, model, copies, start, State(client.cache.values, db.Snapshot()), client.calls - old(client.calls), clock);
    SpentOnAll(w, start.cache, AllTexts(copies), old(client.budget));
    db.SetProfileStatus(model, Store.Status.Ready);
    ok := true;
  }

  lemma AtStart(w: Client, model: string, copies: seq<Copy>, start: State, clock: Clock)
    requires model in start.db.profiles
    ensures Warmed(w, model, copies, start, start.(db := SetStatus(start.db, model, Warming)), 0, 0, clock)
  {
  }

  // ---- The whole operation ---------------------------------------------------------------------

  /** How many of the texts are cached already. */
  function Hits(w: Client, cache: Cache, texts: seq<string>, n: nat): nat
    requires n <= |texts|
  {
    if n == 0 then 0 else Hits(w, cache, texts, n - 1) + (if w.key(texts[n - 1]) in cache then 1 else 0)
  }

  lemma {:induction false} HitsAre(w: Client, cache: Cache, texts: seq<string>, n: nat)
    requires n <= |texts|
    ensures Hits(w, cache, texts, n) == |set i | 0 <= i < n && w.key(texts[i]) in cache|
  {
    if n > 0 {
      HitsAre(w, cache, texts, n - 1);
      var before := set i | 0 <= i < n - 1 && w.key(texts[i]) in cache;
      assert (set i | 0 <= i < n && w.key(texts[i]) in cache) == before + if w.key(texts[n - 1]) in cache then {n - 1} else {};
    }
  }

  datatype Result =
    | SameProfile | UnknownProfile | Unavailable | WrongProvider | SourceNotReady | BadSource | WrongSize | ProviderFailed
    | Report(chunks: nat, hits: nat, calls: nat)

  function Resolve(profiles: map<string, Profile>, name: string): Option<Result> {
    if name !in profiles then Some(UnknownProfile)
    else if profiles[name].status == Archived then Some(Unavailable)
    else None
  }

  /** The checks before anything is read, in order. */
  function Rejection(profiles: map<string, Profile>, target: string, source: string, providerFits: bool): Option<Result> {
    if target == source then Some(SameProfile)
    else if Resolve(profiles, target).Some? then Resolve(profiles, target)
    else if !providerFits then Some(WrongProvider)
    else if Resolve(profiles, source).Some? then Resolve(profiles, source)
    else if profiles[source].status != Store.Status.Ready then Some(SourceNotReady)
    else None
  }

  /** A warm begins exactly between two different known profiles, neither archived, the source
      ready and the target of the configured provider; otherwise the first of these that fails
      is the reason. */
  lemma WhyRejected(profiles: map<string, Profile>, target: string, source: string, providerFits: bool)
    ensures var usable := (name: string) => name in profiles && profiles[name].status != Archived;
            var r := Rejection(profiles, target, source, providerFits);
            && (r.None? <==> target != source && usable(target) && providerFits && usable(source) && profiles[source].status == Store.Status.Ready)
            && (r == Some(SameProfile) <==> target == source)
            && (r == Some(UnknownProfile) <==>
                  target != source && (target !in profiles || (usable(target) && providerFits && source !in profiles)))
            && (r == Some(Unavailable) <==>
                  && target != source && target in profiles
                  && (!usable(target) || (providerFits && source in profiles && !usable(source))))
            && (r == Some(WrongProvider) <==> target != source && usable(target) && !providerFits)
            && (r == Some(SourceNotReady) <==>
                  target != source && usable(target) && providerFits && usable(source) && profiles[source].status != Store.Status.Ready)
  {
  }

  /** `contains_many`: it raises on the first wanted entry of the wrong size, whatever else is in
      the cache. */
  method CountHits(w: Client, cache: MemoryCache, texts: seq<string>) returns (ok: bool, hits: nat, missing: set<string>)
    ensures ok <==> CachedFit(w, cache.values, texts)
    ensures ok ==> hits == Hits(w, cache.values, texts, |texts|) && |missing| == Estimate(w, cache.values, texts)
    ensures ok ==> (hits == |texts| <==> missing == {})
  {
    ok, hits, missing := true, 0, {};
    var i := 0;
    while i < |texts|
      invariant i <= |texts| && hits == Hits(w, cache.values, texts, i) && missing == UncachedKeys(w, cache.values, texts, i)
      invariant hits <= i && (hits == i <==> missing == {})
      invariant forall j :: 0 <= j < i && w.key(texts[j]) in cache.values ==> |cache.values[w.key(texts[j])]| == w.dimensions
    {
      var found, mismatch := cache.Get(w.key(texts[i]), w.dimensions);
      if mismatch {
        return false, hits, missing;
      }
      if found.Some? {
        hits := hits + 1;
      } else {
        missing := missing + {w.key(texts[i])};
      }
      i := i + 1;
    }
  }

  /** `warm` with a catalog.  A refusal, an unreadable source, a wanted entry of the wrong size
      and a dry run change nothing; a warm that ends made exactly the reported calls and left
      the profile ready; one that fails left an attempt behind. */
  method Warm(db: Database, client: CachedClient, target: string, source: string, workspace: string, rows: seq<DocKey>,
              ids: seq<RowId>, clean: Cleaner, providerFits: bool, dryRun: bool, clock: Clock)
    returns (result: Result, ghost copies: seq<Copy>, ghost a: Attempt)
    requires source in db.profiles ==>
               && (forall k :: k in rows <==> k in CatalogKeys(db.profiles[source].catalog, workspace))
               && (forall id :: id in ids <==> id in SelectedIds(db.profiles[source].table, workspace))
    modifies db, client, client.cache
    ensures Rejection(old(db.profiles), target, source, providerFits).Some? ==>
              result == Rejection(old(db.profiles), target, source, providerFits).value
    ensures Rejection(old(db.profiles), target, source, providerFits).None? ==>
              && target in old(db.profiles) && source in old(db.profiles)
              && (result.BadSource? <==> !Listable(old(db.Snapshot()), source, workspace, rows, ids, clean))
              && (!result.BadSource? ==>
                    && Lists(old(db.Snapshot()), source, workspace, rows, ids, clean, copies)
                    && (result.WrongSize? <==> !CachedFit(client.w, old(client.cache.values), AllTexts(copies)))
                    && (result.Report? <==>
                          && CachedFit(client.w, old(client.cache.values), AllTexts(copies))
                          && (dryRun || (&& AllEmbed(client.w, old(client.cache.values), AllTexts(copies), |AllTexts(copies)|)
                                         && Estimate(client.w, old(client.cache.values), AllTexts(copies)) <= old(client.budget))))
                    && (result.Report? || result.WrongSize? || result.ProviderFailed?))
    ensures !result.ProviderFailed? && !(result.Report? && !dryRun) ==>
              db.Snapshot() == old(db.Snapshot()) && client.cache.values == old(client.cache.values) && client.calls == old(client.calls)
    ensures result.Report? ==>
              && result.chunks == |AllTexts(copies)|
              && result.hits == Hits(client.w, old(client.cache.values), AllTexts(copies), |AllTexts(copies)|)
              && result.calls == Misses(client.w, old(client.cache.values), AllTexts(copies), |AllTexts(copies)|)
    ensures result.Report? && !dryRun ==>
              && target in old(db.profiles)
              && State(client.cache.values, db.Snapshot())
                 == Complete(client.w, target, copies, State(old(client.cache.values), old(db.Snapshot())), clock)
              && client.calls == old(client.calls) + result.calls
    ensures result.ProviderFailed? ==>
              && !dryRun && target in old(db.profiles) && Reaches(copies, a)
              && State(client.cache.values, db.Snapshot())
                 == Try(client.w, target, copies, State(old(client.cache.values), old(db.Snapshot())), a)
  {
    hide Try, Complete, Misses, Hits, Estimate, Lists, Listable, Texts, SelectedIds, CatalogKeys, AllEmbed, CachedFit, Spent;
    copies, a := [], Attempt(0, 0, clock);
    var rejection := Rejection(db.profiles, target, source, providerFits);
    if rejection.Some? {
      return rejection.value, copies, a;
    }
    var ok, found := ListWarmable(db, source, workspace, rows, ids, clean);
    if !ok {
      return BadSource, copies, a;
    }
    copies := found;
    var texts := AllTexts(found);
    var fit, hits, missing := CountHits(client.w, client.cache, texts);
    if !fit {
      return WrongSize, copies, a;
    }
    ghost var cache := client.cache.values;
    EstimateIsExact(client.w, cache, texts);
    result := Report(|texts|, hits, |missing|);
    if dryRun {
      return;
    }
    var done;
    done, a := WarmAll(db, client, target, found, clock);
    if done {
      SpentOnAll(client.w, cache, texts, old(client.budget));
    } else {
      result := ProviderFailed;
    }
  }
}
