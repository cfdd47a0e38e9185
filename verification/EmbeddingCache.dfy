/** Embeddings through the cache: what counts as the same text, what a loop of cached
    calls costs, and what it returns. */
module EmbeddingCache {
  import opened Text
  import opened Store

  // ---- Cache keys ----------------------------------------------------------------

  /** The part of a model profile that a cache key depends on. */
  datatype EmbeddingProfile = EmbeddingProfile(
    provider: string, model: string, dimensions: nat, queryPrefix: string, documentPrefix: string)

  /** `text.split()`: maximal runs of characters that are not whitespace. */
  function Words(text: string, space: char -> bool): seq<string> {
    if text == "" then []
    else if space(text[0]) then Words(text[1..], space)
    else
      var n := WordLength(text, space);
      [text[..n]] + Words(text[n..], space)
  }

  function WordLength(text: string, space: char -> bool): (n: nat)
    ensures n <= |text|
    ensures text != "" && !space(text[0]) ==> 0 < n
    ensures forall i :: 0 <= i < n ==> !space(text[i])
    ensures n < |text| ==> space(text[n])
  {
    if text == "" || space(text[0]) then 0 else 1 + WordLength(text[1..], space)
  }

  function JoinWords(words: seq<string>): string {
    if words == [] then "" else if |words| == 1 then words[0] else words[0] + " " + JoinWords(words[1..])
  }

  /** The text hashed into a cache key; the hash itself is taken to be injective. */
  function CacheKey(p: EmbeddingProfile, text: string, purpose: string, space: char -> bool): string {
    p.provider + "\0" + p.model + "\0" + Decimal(p.dimensions) + "\0" + purpose + "\0" + JoinWords(Words(text, space))
  }

  predicate PlainWords(words: seq<string>, space: char -> bool) {
    forall i :: 0 <= i < |words| ==> words[i] != "" && forall j :: 0 <= j < |words[i]| ==> !space(words[i][j])
  }

  lemma {:induction false} WordsArePlain(text: string, space: char -> bool)
    ensures PlainWords(Words(text, space), space)
    decreases |text|
  {
    if text != "" {
      if space(text[0]) {
        WordsArePlain(text[1..], space);
      } else {
        WordsArePlain(text[WordLength(text, space)..], space);
      }
    }
  }

  /** Gaps and words in turn. */
  function Spaced(gaps: seq<string>, words: seq<string>): string
    requires |gaps| == |words| + 1
  {
    if words == [] then gaps[0] else gaps[0] + words[0] + Spaced(gaps[1..], words[1..])
  }

  /** Gaps are whitespace; only the first and the last may be empty. */
  ghost predicate GapsBetween(gaps: seq<string>, words: seq<string>, space: char -> bool) {
    && |gaps| == |words| + 1
    && (forall i :: 0 <= i < |gaps| ==> forall j :: 0 <= j < |gaps[i]| ==> space(gaps[i][j]))
    && (forall i :: 0 < i < |words| ==> gaps[i] != "")
  }

  lemma {:induction false} SkipSpaces(gap: string, text: string, space: char -> bool)
    requires forall j :: 0 <= j < |gap| ==> space(gap[j])
    ensures Words(gap + text, space) == Words(text, space)
    decreases |gap|
  {
    if gap == "" {
      assert gap + text == text;
    } else {
      SkipSpaces(gap[1..], text, space);
      assert (gap + text)[1..] == gap[1..] + text;
    }
  }

  lemma WordEnds(word: string, rest: string, space: char -> bool)
    requires (forall j :: 0 <= j < |word| ==> !space(word[j])) && (rest != "" ==> space(rest[0]))
    ensures WordLength(word + rest, space) == |word|
  {
    hide WordLength;
    var text := word + rest;
    var n := WordLength(text, space);
    assert forall j :: 0 <= j < |word| ==> text[j] == word[j];
    assert rest != "" ==> text[|word|] == rest[0];
    if n < |word| {
      assert false;
    } else if n > |word| {
      assert false;
    }
  }

  lemma TakeWord(word: string, rest: string, space: char -> bool)
    requires word != "" && (forall j :: 0 <= j < |word| ==> !space(word[j])) && (rest != "" ==> space(rest[0]))
    ensures Words(word + rest, space) == [word] + Words(rest, space)
  {
    hide WordLength;
    var text := word + rest;
    WordEnds(word, rest, space);
    assert text[0] == word[0];
    assert text[..|word|] == word && text[|word|..] == rest;
  }

  lemma SpacedBegins(gaps: seq<string>, words: seq<string>, space: char -> bool)
    requires GapsBetween(gaps, words, space) && (words != [] ==> gaps[0] != "")
    ensures Spaced(gaps, words) != "" ==> space(Spaced(gaps, words)[0])
  {
  }

  lemma {:induction false} SpacedIsRead(gaps: seq<string>, words: seq<string>, space: char -> bool)
    requires GapsBetween(gaps, words, space) && PlainWords(words, space)
    ensures Words(Spaced(gaps, words), space) == words
    decreases |words|
  {
    if words == [] {
      SkipSpaces(gaps[0], "", space);
      assert gaps[0] + "" == gaps[0];
    } else {
      var rest := Spaced(gaps[1..], words[1..]);
      SpacedIsRead(gaps[1..], words[1..], space);
      SpacedBegins(gaps[1..], words[1..], space);
      SkipSpaces(gaps[0], words[0] + rest, space);
      TakeWord(words[0], rest, space);
      assert gaps[0] + words[0] + rest == gaps[0] + (words[0] + rest);
      assert words == [words[0]] + words[1..];
    }
  }

  lemma {:induction false} WordsAreSpaced(text: string, space: char -> bool) returns (gaps: seq<string>)
    ensures GapsBetween(gaps, Words(text, space), space) && Spaced(gaps, Words(text, space)) == text
    ensures text != "" && !space(text[0]) ==> gaps[0] == ""
    decreases |text|
  {
    hide GapsBetween, Spaced;
    if text == "" {
      gaps := [""];
      NoWords(space);
    } else if space(text[0]) {
      var more := WordsAreSpaced(text[1..], space);
      GapsCount(more, Words(text, space), space);
      gaps := [[text[0]] + more[0]] + more[1..];
      assert text == [text[0]] + text[1..];
      LongerGap(text[0], more, Words(text, space), space);
    } else {
      var n := WordLength(text, space);
      var more := WordsAreSpaced(text[n..], space);
      NextGap(text[n..], more, space);
      gaps := [""] + more;
      assert text == text[..n] + text[n..];
      OneMoreWord(text[..n], more, Words(text[n..], space), space);
    }
  }

  lemma NoWords(space: char -> bool)
    ensures GapsBetween([""], [], space) && Spaced([""], []) == ""
  {
  }

  lemma GapsCount(gaps: seq<string>, words: seq<string>, space: char -> bool)
    requires GapsBetween(gaps, words, space)
    ensures |gaps| == |words| + 1
  {
  }

  lemma LongerGap(c: char, gaps: seq<string>, words: seq<string>, space: char -> bool)
    requires GapsBetween(gaps, words, space) && space(c)
    ensures var longer := [[c] + gaps[0]] + gaps[1..];
            GapsBetween(longer, words, space) && Spaced(longer, words) == [c] + Spaced(gaps, words)
  {
    var longer := [[c] + gaps[0]] + gaps[1..];
    assert longer[1..] == gaps[1..];
  }

  lemma OneMoreWord(word: string, gaps: seq<string>, words: seq<string>, space: char -> bool)
    requires GapsBetween(gaps, words, space) && (words != [] ==> gaps[0] != "")
    ensures GapsBetween([""] + gaps, [word] + words, space) && Spaced([""] + gaps, [word] + words) == word + Spaced(gaps, words)
  {
    assert ([""] + gaps)[1..] == gaps && ([word] + words)[1..] == words;
  }

  lemma NextGap(text: string, gaps: seq<string>, space: char -> bool)
    requires GapsBetween(gaps, Words(text, space), space) && Spaced(gaps, Words(text, space)) == text
    requires text != "" ==> space(text[0])
    ensures Words(text, space) != [] ==> gaps[0] != ""
  {
    WordsArePlain(text, space);
  }

  /** The words of a text are exactly what stands between its gaps: none is lost, cut or joined. */
  lemma WordsExactly(text: string, words: seq<string>, space: char -> bool)
    ensures Words(text, space) == words <==>
              PlainWords(words, space) && exists gaps :: GapsBetween(gaps, words, space) && Spaced(gaps, words) == text
  {
    if Words(text, space) == words {
      WordsArePlain(text, space);
      var gaps := WordsAreSpaced(text, space);
    }
    if PlainWords(words, space) && exists gaps :: GapsBetween(gaps, words, space) && Spaced(gaps, words) == text {
      var gaps :| GapsBetween(gaps, words, space) && Spaced(gaps, words) == text;
      SpacedIsRead(gaps, words, space);
    }
  }

  lemma {:induction false} JoinWordsInjective(a: seq<string>, b: seq<string>, space: char -> bool)
    requires space(' ') && PlainWords(a, space) && PlainWords(b, space)
    requires JoinWords(a) == JoinWords(b)
    ensures a == b
  {
    if a == [] || b == [] {
    } else if |a| == 1 && |b| == 1 {
      assert a == [a[0]] && b == [b[0]];
    } else {
      assert |a| > 1 ==> JoinWords(a) == a[0] + [' '] + JoinWords(a[1..]);
      assert |b| > 1 ==> JoinWords(b) == b[0] + [' '] + JoinWords(b[1..]);
      assert ' ' !in a[0] && ' ' !in b[0];
      assert |a| > 1 ==> JoinWords(a)[|a[0]|] == ' ';
      assert |b| > 1 ==> JoinWords(b)[|b[0]|] == ' ';
      FirstFieldUnique(a[0], JoinWords(a[1..]), b[0], JoinWords(b[1..]), ' ');
      JoinWordsInjective(a[1..], b[1..], space);
      assert a == [a[0]] + a[1..] && b == [b[0]] + b[1..];
    }
  }

  /** One profile's keys for one purpose coincide exactly when the texts have the same words. */
  lemma SameKeySameWords(p: EmbeddingProfile, s: string, t: string, purpose: string, space: char -> bool)
    requires space(' ')
    ensures CacheKey(p, s, purpose, space) == CacheKey(p, t, purpose, space) <==> Words(s, space) == Words(t, space)
  {
    if CacheKey(p, s, purpose, space) == CacheKey(p, t, purpose, space) {
      var head := p.provider + "\0" + p.model + "\0" + Decimal(p.dimensions) + "\0" + purpose + "\0";
      assert CacheKey(p, s, purpose, space)[|head|..] == JoinWords(Words(s, space));
      assert CacheKey(p, t, purpose, space)[|head|..] == JoinWords(Words(t, space));
      WordsArePlain(s, space);
      WordsArePlain(t, space);
      JoinWordsInjective(Words(s, space), Words(t, space), space);
    }
  }

  /** A query never reads a document's cached embedding. */
  lemma PurposesApart(p: EmbeddingProfile, s: string, t: string, space: char -> bool)
    ensures CacheKey(p, s, "query", space) != CacheKey(p, t, "document", space)
  {
    var head := p.provider + "\0" + p.model + "\0" + Decimal(p.dimensions) + "\0";
    assert CacheKey(p, s, "query", space)[|head|] == 'q';
    assert CacheKey(p, t, "document", space)[|head|] == 'd';
  }

  // ---- The cache as a function of the texts sent through it ----------------------------

  type Cache = map<string, Vector>

  /** A provider that answers, and the key under which an answer is cached. */
  datatype Client = Client(key: string -> string, answer: string -> Vector, dimensions: nat)

  /** The cache after a text has been embedded. */
  function Fill1(w: Client, cache: Cache, t: string): Cache {
    if w.key(t) in cache then cache else cache[w.key(t) := w.answer(t)]
  }

  /** The cache after the first `n` texts. */
  function Fill(w: Client, cache: Cache, texts: seq<string>, n: nat): Cache
    requires n <= |texts|
  {
    if n == 0 then cache else Fill1(w, Fill(w, cache, texts, n - 1), texts[n - 1])
  }

  function Keys(w: Client, texts: seq<string>, n: nat): set<string>
    requires n <= |texts|
  {
    if n == 0 then {} else Keys(w, texts, n - 1) + {w.key(texts[n - 1])}
  }

  /** `set(keys) - cached`, with `cached` the keys the cache already holds. */
  function UncachedKeys(w: Client, cache: Cache, texts: seq<string>, n: nat): set<string>
    requires n <= |texts|
  {
    if n == 0 then {}
    else UncachedKeys(w, cache, texts, n - 1) + (if w.key(texts[n - 1]) in cache then {} else {w.key(texts[n - 1])})
  }

  lemma {:induction false} UncachedKeysAre(w: Client, cache: Cache, texts: seq<string>, n: nat)
    requires n <= |texts|
    ensures UncachedKeys(w, cache, texts, n) == Keys(w, texts, n) - cache.Keys
  {
    if n > 0 {
      UncachedKeysAre(w, cache, texts, n - 1);
    }
  }

  /** The `provider_calls` of a warm estimate. */
  function Estimate(w: Client, cache: Cache, texts: seq<string>): nat {
    |UncachedKeys(w, cache, texts, |texts|)|
  }

  lemma {:induction false} FillKeys(w: Client, cache: Cache, texts: seq<string>, n: nat)
    requires n <= |texts|
    ensures Fill(w, cache, texts, n).Keys == cache.Keys + Keys(w, texts, n)
    ensures forall k :: k in cache ==> Fill(w, cache, texts, n)[k] == cache[k]
  {
    if n > 0 {
      FillKeys(w, cache, texts, n - 1);
    }
  }

  /** A cached vector is the one found in the initial cache, or the provider's answer to
      some text that was sent under that very key. */
  lemma {:induction false} FillOrigin(w: Client, cache: Cache, texts: seq<string>, n: nat, k: string)
    requires n <= |texts| && k in Fill(w, cache, texts, n) && k !in cache
    ensures exists i :: 0 <= i < n && w.key(texts[i]) == k && Fill(w, cache, texts, n)[k] == w.answer(texts[i])
  {
    if n > 0 {
      if k in Fill(w, cache, texts, n - 1) {
        FillOrigin(w, cache, texts, n - 1, k);
      } else {
        assert w.key(texts[n - 1]) == k;
      }
    }
  }

  lemma {:induction false} FillKnown(w: Client, cache: Cache, texts: seq<string>, n: nat)
    requires n <= |texts| && Keys(w, texts, n) <= cache.Keys
    ensures Fill(w, cache, texts, n) == cache
  {
    if n > 0 {
      FillKnown(w, cache, texts, n - 1);
    }
  }

  lemma {:induction false} KeysGrow(w: Client, texts: seq<string>, m: nat, n: nat)
    requires m <= n <= |texts|
    ensures Keys(w, texts, m) <= Keys(w, texts, n)
    decreases n - m
  {
    if m < n {
      KeysGrow(w, texts, m, n - 1);
    }
  }

  /** Starting over after an interruption: the cache goes on as if nothing had happened. */
  lemma {:induction false} FillResumes(w: Client, cache: Cache, texts: seq<string>, m: nat, n: nat)
    requires m <= |texts| && n <= |texts|
    ensures Fill(w, Fill(w, cache, texts, m), texts, n) == Fill(w, cache, texts, if m < n then n else m)
    decreases n
  {
    if n <= m {
      FillKeys(w, cache, texts, m);
      KeysGrow(w, texts, n, m);
      FillKnown(w, Fill(w, cache, texts, m), texts, n);
    } else {
      FillResumes(w, cache, texts, m, n - 1);
    }
  }

  /** The provider calls a loop over the first `n` texts really makes. */
  function Misses(w: Client, cache: Cache, texts: seq<string>, n: nat): nat
    requires n <= |texts|
  {
    if n == 0 then 0
    else Misses(w, cache, texts, n - 1) + (if w.key(texts[n - 1]) in Fill(w, cache, texts, n - 1) then 0 else 1)
  }

  /** Provider calls of a loop that came through the first `n` texts with so many calls allowed:
      one per miss, the one for the text it stopped at included if it was still made. */
  function Spent(w: Client, cache: Cache, texts: seq<string>, n: nat, budget: nat): nat
    requires n <= |texts|
  {
    var all := if n < |texts| then Misses(w, cache, texts, n + 1) else Misses(w, cache, texts, n);
    if all <= budget then all else budget
  }

  lemma {:induction false} MissesGrow(w: Client, cache: Cache, texts: seq<string>, m: nat, n: nat)
    requires m <= n <= |texts|
    ensures Misses(w, cache, texts, m) <= Misses(w, cache, texts, n)
    decreases n - m
  {
    if m < n {
      MissesGrow(w, cache, texts, m, n - 1);
    }
  }

  lemma MissMeansNew(w: Client, cache: Cache, texts: seq<string>, n: nat, k: string)
    requires n <= |texts|
    ensures k in Fill(w, cache, texts, n) <==> k in cache || k in UncachedKeys(w, cache, texts, n)
  {
    FillKeys(w, cache, texts, n);
    UncachedKeysAre(w, cache, texts, n);
  }

  lemma {:induction false} MissesAreUncachedKeys(w: Client, cache: Cache, texts: seq<string>, n: nat)
    requires n <= |texts|
    ensures Misses(w, cache, texts, n) == |UncachedKeys(w, cache, texts, n)|
  {
    if n > 0 {
      var k := w.key(texts[n - 1]);
      var before := UncachedKeys(w, cache, texts, n - 1);
      MissesAreUncachedKeys(w, cache, texts, n - 1);
      MissMeansNew(w, cache, texts, n - 1, k);
      if k in cache || k in before {
        assert UncachedKeys(w, cache, texts, n) == before;
      } else {
        assert UncachedKeys(w, cache, texts, n) == before + {k};
      }
    }
  }

  /** The warm estimate is exact: the distinct uncached keys are as many as the provider
      calls of the full embedding loop. */
  lemma EstimateIsExact(w: Client, cache: Cache, texts: seq<string>)
    ensures Misses(w, cache, texts, |texts|) == Estimate(w, cache, texts)
  {
    MissesAreUncachedKeys(w, cache, texts, |texts|);
  }

  /** Vectors read from a cache for the first texts of a list. */
  ghost predicate Reads(w: Client, cache: Cache, texts: seq<string>, vectors: seq<Vector>) {
    && |vectors| <= |texts|
    && forall i :: 0 <= i < |vectors| ==> w.key(texts[i]) in cache && vectors[i] == cache[w.key(texts[i])]
  }

  lemma ReadsOneMore(w: Client, cache: Cache, texts: seq<string>, vectors: seq<Vector>)
    requires |vectors| < |texts| && Reads(w, cache, texts, vectors)
    ensures var t := texts[|vectors|];
            Reads(w, Fill1(w, cache, t), texts, vectors + [Fill1(w, cache, t)[w.key(t)]])
  {
  }

  /** The client of a profile: keys and provider calls are for the prefixed text. */
  function DocumentClient(p: EmbeddingProfile, space: char -> bool, provider: string -> Vector): Client {
    Client(t => CacheKey(p, p.documentPrefix + t, "document", space), t => provider(p.documentPrefix + t), p.dimensions)
  }

  /** Every vector of the loop was cached before, or is the provider's answer for a text of the
      loop with the very same words. */
  lemma VectorsAnswerTheWords(p: EmbeddingProfile, space: char -> bool, provider: string -> Vector, cache: Cache,
                              texts: seq<string>, vectors: seq<Vector>, i: nat)
    requires space(' ') && i < |vectors|
    requires var w := DocumentClient(p, space, provider); Reads(w, Fill(w, cache, texts, |texts|), texts, vectors)
    ensures var w := DocumentClient(p, space, provider);
            || (w.key(texts[i]) in cache && vectors[i] == cache[w.key(texts[i])])
            || (exists j :: 0 <= j < |texts| && vectors[i] == provider(p.documentPrefix + texts[j])
                  && Words(p.documentPrefix + texts[j], space) == Words(p.documentPrefix + texts[i], space))
  {
    hide CacheKey, Fill;
    var w := DocumentClient(p, space, provider);
    if w.key(texts[i]) in cache {
      FillKeys(w, cache, texts, |texts|);
    } else {
      FillOrigin(w, cache, texts, |texts|, w.key(texts[i]));
      var j :| 0 <= j < |texts| && w.key(texts[j]) == w.key(texts[i]) && Fill(w, cache, texts, |texts|)[w.key(texts[i])] == w.answer(texts[j]);
      SameKeySameWords(p, p.documentPrefix + texts[j], p.documentPrefix + texts[i], "document", space);
    }
  }

  // ---- Sizes --------------------------------------------------------------------------------

  /** None of the texts' own keys holds a vector of another size: `contains_many` does not
      raise. */
  ghost predicate CachedFit(w: Client, cache: Cache, texts: seq<string>) {
    forall i :: 0 <= i < |texts| && w.key(texts[i]) in cache ==> |cache[w.key(texts[i])]| == w.dimensions
  }

  /** A text can be embedded: what is cached under its key, or else the provider's answer, has
      the size of the profile. */
  predicate Embeds(w: Client, cache: Cache, t: string) {
    |if w.key(t) in cache then cache[w.key(t)] else w.answer(t)| == w.dimensions
  }

  /** The first `n` texts can be embedded one after the other. */
  ghost predicate AllEmbed(w: Client, cache: Cache, texts: seq<string>, n: nat)
    requires n <= |texts|
  {
    forall i :: 0 <= i < n ==> Embeds(w, Fill(w, cache, texts, i), texts[i])
  }

  lemma {:induction false} FillStays(w: Client, cache: Cache, texts: seq<string>, m: nat, n: nat)
    requires m <= n <= |texts|
    ensures forall k :: k in Fill(w, cache, texts, m) ==> k in Fill(w, cache, texts, n) && Fill(w, cache, texts, n)[k] == Fill(w, cache, texts, m)[k]
    decreases n - m
  {
    if m < n {
      FillStays(w, cache, texts, m, n - 1);
    }
  }

  lemma FillNext(w: Client, cache: Cache, texts: seq<string>, n: nat)
    requires n < |texts|
    ensures Fill(w, cache, texts, n + 1) == Fill1(w, Fill(w, cache, texts, n), texts[n])
  {
  }

  /** A text's key ends up with the vector that decided whether the text can be embedded. */
  lemma EmbedsMeans(w: Client, cache: Cache, texts: seq<string>, i: nat, n: nat)
    requires i < n <= |texts|
    ensures w.key(texts[i]) in Fill(w, cache, texts, n)
    ensures Embeds(w, Fill(w, cache, texts, i), texts[i]) <==> |Fill(w, cache, texts, n)[w.key(texts[i])]| == w.dimensions
  {
    hide Fill;
    FillNext(w, cache, texts, i);
    FillStays(w, cache, texts, i + 1, n);
    assert w.key(texts[i]) in Fill(w, cache, texts, i + 1);
  }

  /** They can exactly if in the end each text's key holds a vector of the right size. */
  lemma AllEmbedMeans(w: Client, cache: Cache, texts: seq<string>, n: nat)
    requires n <= |texts|
    ensures AllEmbed(w, cache, texts, n) <==>
              forall i :: 0 <= i < n ==> w.key(texts[i]) in Fill(w, cache, texts, n) && |Fill(w, cache, texts, n)[w.key(texts[i])]| == w.dimensions
  {
    hide Fill, Embeds;
    forall i | 0 <= i < n
      ensures w.key(texts[i]) in Fill(w, cache, texts, n)
      ensures Embeds(w, Fill(w, cache, texts, i), texts[i]) <==> |Fill(w, cache, texts, n)[w.key(texts[i])]| == w.dimensions
    {
      EmbedsMeans(w, cache, texts, i, n);
    }
  }

  // ---- One cache for all profiles -------------------------------------------------------------

  predicate NoNul(s: string) {
    '\0' !in s
  }

  predicate PlainProfile(p: EmbeddingProfile) {
    NoNul(p.provider) && NoNul(p.model)
  }

  const NUL := "\0"

  lemma RightToLeft(a: string, b: string, c: string, d: string, e: string)
    ensures a + NUL + b + NUL + c + NUL + d + NUL + e == a + NUL + (b + NUL + (c + NUL + (d + NUL + e)))
  {
    var x := d + NUL + e;
    assert a + NUL + b + NUL + c + NUL + d + NUL + e == (a + NUL + b + NUL + c + NUL) + x;
    var y := c + NUL + x;
    assert (a + NUL + b + NUL + c + NUL) + x == (a + NUL + b + NUL) + y;
    var z := b + NUL + y;
    assert (a + NUL + b + NUL) + y == a + NUL + z;
  }

  lemma FieldsUnique(a: string, b: string, c: string, d: string, a': string, b': string, c': string, d': string)
    requires NoNul(a) && NoNul(b) && NoNul(c) && NoNul(a') && NoNul(b') && NoNul(c')
    requires a + NUL + (b + NUL + (c + NUL + d)) == a' + NUL + (b' + NUL + (c' + NUL + d'))
    ensures a == a' && b == b' && c == c' && d == d'
  {
    FirstFieldUnique(a, b + NUL + (c + NUL + d), a', b' + NUL + (c' + NUL + d'), '\0');
    FirstFieldUnique(b, c + NUL + d, b', c' + NUL + d', '\0');
    FirstFieldUnique(c, d, c', d', '\0');
  }

  /** A key spells out the size of its profile's vectors. */
  lemma KeySpellsSize(p: EmbeddingProfile, q: EmbeddingProfile, s: string, t: string, purpose: string, other: string, space: char -> bool)
    requires PlainProfile(p) && PlainProfile(q) && CacheKey(p, s, purpose, space) == CacheKey(q, t, other, space)
    ensures p.provider == q.provider && p.model == q.model && p.dimensions == q.dimensions
  {
    var c, d := JoinWords(Words(s, space)), JoinWords(Words(t, space));
    RightToLeft(p.provider, p.model, Decimal(p.dimensions), purpose, c);
    RightToLeft(q.provider, q.model, Decimal(q.dimensions), other, d);
    DigitsLack(Decimal(p.dimensions), '\0');
    DigitsLack(Decimal(q.dimensions), '\0');
    FieldsUnique(p.provider, p.model, Decimal(p.dimensions), purpose + NUL + c, q.provider, q.model, Decimal(q.dimensions), other + NUL + d);
    DecimalInjective(p.dimensions, q.dimensions);
  }

  /** One call of some profile's client: its prefixed text, its purpose, and what the provider
      answers if it is asked. */
  datatype Call = Call(profile: EmbeddingProfile, text: string, purpose: string, answer: Vector)

  /** The shared cache after the first `n` calls of any clients, from an empty one. */
  function Shared(calls: seq<Call>, n: nat, space: char -> bool): Cache
    requires n <= |calls|
  {
    if n == 0 then map[]
    else
      var before, c := Shared(calls, n - 1, space), calls[n - 1];
      var k := CacheKey(c.profile, c.text, c.purpose, space);
      if k in before || |c.answer| != c.profile.dimensions then before else before[k := c.answer]
  }

  /** The call asked for this key and was answered by a vector of its profile's size. */
  ghost predicate Fills(c: Call, k: string, space: char -> bool) {
    CacheKey(c.profile, c.text, c.purpose, space) == k && |c.answer| == c.profile.dimensions
  }

  /** What the shared cache holds under a key is the first such answer. */
  lemma {:induction false} SharedHolds(calls: seq<Call>, n: nat, k: string, space: char -> bool)
    requires n <= |calls|
    ensures k in Shared(calls, n, space) <==> exists i :: 0 <= i < n && Fills(calls[i], k, space)
    ensures forall i :: 0 <= i < n && Fills(calls[i], k, space) && (forall j :: 0 <= j < i ==> !Fills(calls[j], k, space)) ==>
              k in Shared(calls, n, space) && Shared(calls, n, space)[k] == calls[i].answer
  {
    hide CacheKey;
    if n > 0 {
      SharedHolds(calls, n - 1, k, space);
    }
  }

  /** Whatever clients have filled it, the shared cache holds the right sizes for each profile. */
  lemma {:induction false} SharedCacheFits(calls: seq<Call>, n: nat, p: EmbeddingProfile, text: string, purpose: string, space: char -> bool)
    requires n <= |calls| && PlainProfile(p) && forall i :: 0 <= i < |calls| ==> PlainProfile(calls[i].profile)
    ensures var k := CacheKey(p, text, purpose, space);
            k in Shared(calls, n, space) ==> |Shared(calls, n, space)[k]| == p.dimensions
  {
    hide CacheKey;
    if n > 0 {
      var c := calls[n - 1];
      SharedCacheFits(calls, n - 1, p, text, purpose, space);
      if CacheKey(c.profile, c.text, c.purpose, space) == CacheKey(p, text, purpose, space) {
        KeySpellsSize(c.profile, p, c.text, text, c.purpose, purpose, space);
      }
    }
  }

  /** So no warm ever finds a vector of the wrong size there. */
  lemma SharedCacheNeverMismatches(calls: seq<Call>, p: EmbeddingProfile, space: char -> bool, provider: string -> Vector, texts: seq<string>)
    requires PlainProfile(p) && forall i :: 0 <= i < |calls| ==> PlainProfile(calls[i].profile)
    ensures CachedFit(DocumentClient(p, space, provider), Shared(calls, |calls|, space), texts)
  {
    hide CacheKey;
    forall i | 0 <= i < |texts| {
      SharedCacheFits(calls, |calls|, p, p.documentPrefix + texts[i], "document", space);
    }
  }

  /** With NUL in a name two profiles of different sizes can share a key. */
  lemma NulInModelCollides(provider: string, model: string, space: char -> bool)
    requires !space('\0') && !space('2') && !space('x') && forall i :: 0 <= i < |DOCUMENT| ==> !space(DOCUMENT[i])
    ensures var p := EmbeddingProfile(provider, model, 1, "", "");
            var q := EmbeddingProfile(provider, model + NUL + "1" + NUL + DOCUMENT + NUL + "x", 2, "", "");
            CacheKey(p, "x" + NUL + ("2" + NUL + (DOCUMENT + NUL + "x")), DOCUMENT, space) == CacheKey(q, "x", DOCUMENT, space)
  {
    var tail := "2" + NUL + (DOCUMENT + NUL + "x");
    var s := "x" + NUL + tail;
    forall i | 0 <= i < |s| ensures !space(s[i]) {
      assert 4 <= i < 12 ==> s[i] == DOCUMENT[i - 4];
    }
    OneWord(s, space);
    OneWord("x", space);
    assert Decimal(1) == "1" && Decimal(2) == "2";
    RightToLeft(provider, model, "1", DOCUMENT, s);
    RightToLeft(provider, model + NUL + "1" + NUL + DOCUMENT + NUL + "x", "2", DOCUMENT, "x");
    RightToLeft(model, "1", DOCUMENT, "x", tail);
  }

  const DOCUMENT := "document"

  lemma {:induction false} OneWord(s: string, space: char -> bool)
    requires s != "" && forall i :: 0 <= i < |s| ==> !space(s[i])
    ensures Words(s, space) == [s] && JoinWords(Words(s, space)) == s
  {
    var n := WordLength(s, space);
    assert n == |s|;
    assert s[..n] == s && s[n..] == "";
  }

  // ---- The loop, text by text ------------------------------------------------------------------

  lemma NothingYet(w: Client, cache: Cache, texts: seq<string>)
    ensures Fill(w, cache, texts, 0) == cache && Misses(w, cache, texts, 0) == 0
    ensures AllEmbed(w, cache, texts, 0) && Reads(w, cache, texts, [])
  {
  }

  lemma GoesOn(w: Client, cache: Cache, texts: seq<string>, n: nat)
    requires n < |texts| && AllEmbed(w, cache, texts, n) && Embeds(w, Fill(w, cache, texts, n), texts[n])
    ensures AllEmbed(w, cache, texts, n + 1) && Fill(w, cache, texts, n + 1) == Fill1(w, Fill(w, cache, texts, n), texts[n])
    ensures Misses(w, cache, texts, n + 1) == Misses(w, cache, texts, n) + if w.key(texts[n]) in Fill(w, cache, texts, n) then 0 else 1
  {
    hide Embeds, Fill1;
  }

  /** Where one text fails, the whole loop does. */
  lemma StopsAt(w: Client, cache: Cache, texts: seq<string>, n: nat, budget: nat)
    requires n < |texts| && Misses(w, cache, texts, n) <= budget
    requires var c := Fill(w, cache, texts, n);
             !Embeds(w, c, texts[n]) || (w.key(texts[n]) !in c && Misses(w, cache, texts, n) == budget)
    ensures !(AllEmbed(w, cache, texts, |texts|) && Misses(w, cache, texts, |texts|) <= budget)
    ensures Spent(w, cache, texts, n, budget) == Misses(w, cache, texts, n)
              + if w.key(texts[n]) !in Fill(w, cache, texts, n) && Misses(w, cache, texts, n) < budget then 1 else 0
  {
    hide Embeds, Fill;
    MissesGrow(w, cache, texts, n + 1, |texts|);
    assert Misses(w, cache, texts, n + 1) == Misses(w, cache, texts, n) + if w.key(texts[n]) in Fill(w, cache, texts, n) then 0 else 1;
  }

  lemma SpentOnAll(w: Client, cache: Cache, texts: seq<string>, budget: nat)
    requires Misses(w, cache, texts, |texts|) <= budget
    ensures Spent(w, cache, texts, |texts|, budget) == Misses(w, cache, texts, |texts|)
  {
  }

  // ---- The cache and its client, in place -----------------------------------------------

  /** `InMemoryEmbeddingCache`: entries are added and never replaced. */
  class MemoryCache {
    var values: Cache
    constructor ()
      ensures values == map[]
    {
      values := map[];
    }

    /** An entry of the wrong dimension is an error, not a miss. */
    method Get(k: string, dimensions: nat) returns (found: Option<Vector>, mismatch: bool)
      ensures mismatch <==> k in values && |values[k]| != dimensions
      ensures !mismatch ==> found == if k in values then Some(values[k]) else None
    {
      found, mismatch := None, false;
      if k in values {
        if |values[k]| != dimensions {
          mismatch := true;
        } else {
          found := Some(values[k]);
        }
      }
    }

    method Put(k: string, dimensions: nat, v: Vector) returns (ok: bool)
      modifies this
      ensures ok <==> |v| == dimensions
      ensures values == if ok && k !in old(values) then old(values)[k := v] else old(values)
    {
      ok := |v| == dimensions;
      if ok && k !in values {
        values := values[k := v];
      }
    }
  }

  /** `CachedEmbeddingClient` over a provider whose calls may fail: `budget` calls succeed,
      the next one raises. */
  class CachedClient {
    const w: Client
    const cache: MemoryCache
    var calls: nat
    var budget: nat

    constructor (w: Client, cache: MemoryCache, budget: nat)
      ensures this.w == w && this.cache == cache && calls == 0 && this.budget == budget
    {
      this.w, this.cache, this.budget, this.calls := w, cache, budget, 0;
    }

    /** The next call raises, or the answer has the wrong size, or a vector of the wrong size is
        cached: then the cache stays as it was. */
    method Embed(t: string) returns (vector: Option<Vector>)
      modifies this, cache
      ensures vector.Some? <==> Embeds(w, old(cache.values), t) && (w.key(t) in old(cache.values) || old(budget) > 0)
      ensures vector.Some? ==> cache.values == Fill1(w, old(cache.values), t) && vector == Some(cache.values[w.key(t)])
      ensures vector.None? ==> cache.values == old(cache.values)
      ensures calls == old(calls) + (if w.key(t) !in old(cache.values) && old(budget) > 0 then 1 else 0)
      ensures budget == old(budget) - (calls - old(calls))
    {
      var found, mismatch := cache.Get(w.key(t), w.dimensions);
      if mismatch {
        return None;
      }
      if found.Some? {
        return found;
      }
      if budget == 0 {
        return None;
      }
      budget := budget - 1;
      calls := calls + 1;
      var answer := w.answer(t);
      if |answer| != w.dimensions {
        return None;
      }
      var stored := cache.Put(w.key(t), w.dimensions, answer);
      return Some(answer);
    }

    /** The embedding loop of warming.  It stops at the first text that fails; a loop that
        ends has made one call per miss, and every vector it returns is
        the cached one for its text. */
    method EmbedAll(texts: seq<string>) returns (vectors: seq<Vector>, done: bool)
      modifies this, cache
      ensures Reads(w, cache.values, texts, vectors)
      ensures cache.values == Fill(w, old(cache.values), texts, |vectors|)
      ensures done <==> |vectors| == |texts|
      ensures done <==> AllEmbed(w, old(cache.values), texts, |texts|) && Misses(w, old(cache.values), texts, |texts|) <= old(budget)
      ensures calls == old(calls) + Spent(w, old(cache.values), texts, |vectors|, old(budget))
      ensures budget == old(budget) - (calls - old(calls))
    {
      hide Fill, Misses, AllEmbed, Embeds, Fill1, Spent, Reads;
      vectors := [];
      done := true;
      NothingYet(w, cache.values, texts);
      ghost var start := cache.values;
      var i := 0;
      while i < |texts|
        invariant i == |vectors| <= |texts|
        invariant Reads(w, cache.values, texts, vectors)
        invariant cache.values == Fill(w, start, texts, i) && AllEmbed(w, start, texts, i)
        invariant calls == old(calls) + Misses(w, start, texts, i)
        invariant budget == old(budget) - Misses(w, start, texts, i)
      {
        ReadsOneMore(w, cache.values, texts, vectors);
        var v := Embed(texts[i]);
        if v.None? {
          StopsAt(w, start, texts, i, old(budget));
          return vectors, false;
        }
        GoesOn(w, start, texts, i);
        vectors := vectors + [v.value];
        i := i + 1;
      }
      SpentOnAll(w, start, texts, old(budget));
    }
  }
}
