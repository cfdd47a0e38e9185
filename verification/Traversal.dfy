/** Following `next_cursor` from page to page while writers commit in between. */
module Traversal {
  import opened Text
  import opened Store
  import opened CursorToken
  import opened Runs
  import opened Revisions
  import opened Listing

  // ---- Which requests are answered ---------------------------------------------------------------

  /** A name that is given and not empty, or the setting that stands in for it. */
  function Chosen(given: Option<string>, setting: string): string {
    match given
    case None => setting
    case Some(name) => if |name| > 0 then name else setting
  }

  /** The list a request asks for. */
  function Asked(env: Env, req: Request): Scope {
    Scope(req.workspace, Chosen(req.model, env.defaultModel), Chosen(req.chunking, env.defaultChunking))
  }

  /** The cursor was issued for this reader, workspace, page size, model and profile. */
  ghost predicate Made(env: Env, req: Request, k: Cursor) {
    && k.workspace == req.workspace && k.subject == env.subject(req.subject) && k.limit == req.limit
    && k.model == Asked(env, req).model && k.chunking == Asked(env, req).chunking
  }

  ghost predicate Offered(env: Env, db: Db, model: string) {
    model in db.profiles && db.profiles[model].status == Status.Ready && env.fits(model)
  }

  /** The number of the list's current revision, as text. */
  function Current(db: Db, scope: Scope): string {
    Decimal(if scope in db.revisions then db.revisions[scope] else 0)
  }

  /** A page is answered exactly if nothing stands against it: the service is on, the profile and
      the model are to be had, the catalog is ready, and a cursor, if there is one, reads back, was
      made for this very request, is in its window and of the current revision. */
  lemma WhenAPageIsAnswered(env: Env, lookup: Db, db: Db, req: Request, now: int)
    requires 1 <= req.limit <= MAX_LIMIT
    ensures var scope := Asked(env, req);
            List(env, lookup, db, req, now).Page? <==>
              && env.enabled && scope.chunking in env.chunkings && Offered(env, lookup, scope.model)
              && db.ready && scope.model in db.profiles && db.profiles[scope.model].status == Status.Ready
              && (req.cursor.Some? ==>
                    var k := Read(env.codec, req.cursor.value, now);
                    k.Some? && Made(env, req, k.value) && now < k.value.expires && k.value.revision == Current(db, scope))
    ensures List(env, lookup, db, req, now).Page? ==>
              List(env, lookup, db, req, now).scope == Asked(env, req) && List(env, lookup, db, req, now).revision == Current(db, Asked(env, req))
  {
    hide Read, FullOf, Matching, Token;
  }

  /** And a refusal has the status of the first thing that stands against it. */
  lemma WhyAListIsRefused(env: Env, lookup: Db, db: Db, req: Request, now: int)
    requires 1 <= req.limit <= MAX_LIMIT
    ensures var scope := Asked(env, req);
            var k := if req.cursor.Some? then Read(env.codec, req.cursor.value, now) else None;
            var r := List(env, lookup, db, req, now);
            var given := (name: Option<string>) => name.Some? && |name.value| > 0;
            if !env.enabled then r == Error(503)
            else if req.cursor.Some? && k.None? then r == Error(422)
            else if scope.chunking !in env.chunkings then r == Error(if given(req.chunking) then 422 else 503)
            else if k.Some? && !(k.value.workspace == req.workspace && k.value.subject == env.subject(req.subject) && k.value.limit == req.limit)
            then r == Error(422)
            else if k.Some? && ((req.model.Some? && k.value.model != scope.model) || (req.chunking.Some? && k.value.chunking != scope.chunking))
            then r == Error(422)
            else if k.Some? && !(k.value.model == scope.model && k.value.chunking == scope.chunking && now < k.value.expires) then r == Error(409)
            else if !Offered(env, lookup, scope.model) then r == Error(if given(req.model) then 422 else 503)
            else if !db.ready then r == Error(503)
            else if k.Some? && k.value.revision != Current(db, scope) then r == Error(409)
            else r.Page? || (r == Error(503) && !(scope.model in db.profiles && db.profiles[scope.model].status == Status.Ready))
  {
    hide Read, FullOf, Matching, Token;
  }

  // ---- One page of a listing ------------------------------------------------------------------

  /** A response is the page of `all` that starts at `off`, and its cursor, if any, stands at
      the page's last row and keeps the window that began at `issued`. */
  ghost predicate PageAt(env: Env, req: Request, r: Response, scope: Scope, revision: string,
                         all: seq<Entry>, off: nat, issued: int)
  {
    && r.Page? && r.scope == scope && r.revision == revision && scope.workspace == req.workspace
    && off + |r.items| <= |all| && r.items == all[off..off + |r.items|]
    && (r.hasMore <==> off + |r.items| < |all|)
    && (r.next.Some? <==> r.hasMore)
    && (r.hasMore ==>
          && |r.items| == req.limit > 0
          && r.next.value == Token(env.codec, CursorAt(env, req, scope, revision, all[off + |r.items| - 1], issued)))
  }

  function CursorAt(env: Env, req: Request, scope: Scope, revision: string, last: Entry, issued: int): Cursor {
    Cursor(req.workspace, scope.model, scope.chunking, env.subject(req.subject), req.limit, revision, last.id,
           match last.public.time case Some(t) => Some(env.iso(t)) case None => None, issued, issued + WINDOW)
  }

  lemma TrimmedIsPage(env: Env, req: Request, k: Option<Cursor>, page: Response, all: seq<Entry>, off: nat, now: int)
    requires 1 <= req.limit && off <= |all|
    requires page.Page? && page.scope == ScopeFor(env, req) && !page.hasMore && page.next.None?
    requires page.items == Taken(all[off..], req.limit + 1)
    requires k.Some? ==> k.value.expires == k.value.issued + WINDOW
    ensures PageAt(env, req, Trimmed(env, req, k, page, now), page.scope, page.revision, all, off,
                   if k.Some? then k.value.issued else now)
  {
    hide Token;
    assert off + |page.items| <= |all| && page.items == all[off..off + |page.items|];
    var r := Trimmed(env, req, k, page, now);
    if |page.items| > req.limit {
      assert r.items == all[off..off + req.limit];
      assert r.items[req.limit - 1] == all[off + req.limit - 1];
    }
  }

  lemma FirstPage(env: Env, lookup: Db, db: Db, req: Request, now: int)
    requires 1 <= req.limit <= MAX_LIMIT && req.cursor.None? && List(env, lookup, db, req, now).Page?
    ensures var scope := ScopeFor(env, req);
            PageAt(env, req, List(env, lookup, db, req, now), scope, RevisionText(db, scope), FullOf(db, scope), 0, now)
  {
    hide PageAt, Trimmed;
    var scope := ScopeFor(env, req);
    var all := FullOf(db, scope);
    MatchAll(all, None);
    assert all[0..] == all;
    TrimmedIsPage(env, req, None, StorePage(env, db, scope, req.limit, None), all, 0, now);
  }

  /** A page after a cursor: same scope, same revision, still inside the window; and, if the
      listing is still the same, the very next rows. */
  lemma NextPage(env: Env, lookup: Db, db: Db, req: Request, now: int, scope: Scope, revision: string,
                 all: seq<Entry>, at: nat, issued: int)
    requires Sensible(env) && 1 <= req.limit <= MAX_LIMIT && at < |all| && Sorted(all) && scope.workspace == req.workspace
    requires req.cursor == Some(Token(env.codec, CursorAt(env, req, scope, revision, all[at], issued)))
    requires List(env, lookup, db, req, now).Page?
    ensures var r := List(env, lookup, db, req, now);
            && ScopeFor(env, req) == scope && RevisionText(db, scope) == revision && now < issued + WINDOW
            && (FullOf(db, scope) == all ==> PageAt(env, req, r, scope, revision, all, at + 1, issued))
  {
    hide PageAt, Trimmed, Token, Faithful, Matching;
    var k := CursorAt(env, req, scope, revision, all[at], issued);
    ReadToken(env.codec, k, now);
    assert Read(env.codec, req.cursor.value, now) == Some(k);
    assert LastOf(env, Some(k)) == Some(PositionOf(all[at]));
    if FullOf(db, scope) == all {
      MatchingIsSuffix(all, at);
      TrimmedIsPage(env, req, Some(k), StorePage(env, db, scope, req.limit, Some(k)), all, at + 1, now);
    }
  }

  /** And the next page is there exactly when nothing has moved: the cursor still reads back,
      the window is open, model and profile are available, and the revision is the same. */
  lemma NextPageSucceeds(env: Env, lookup: Db, db: Db, req: Request, now: int, scope: Scope, revision: string,
                         last: Entry, issued: int)
    requires Sensible(env) && 1 <= req.limit <= MAX_LIMIT && env.enabled
    requires ScopeFor(env, req) == scope && scope.chunking in env.chunkings
    requires req.cursor == Some(Token(env.codec, CursorAt(env, req, scope, revision, last, issued)))
    ensures List(env, lookup, db, req, now).Page? <==>
              && Returns(env.codec, CursorAt(env, req, scope, revision, last, issued), now) && |req.cursor.value| <= MAX_TOKEN
              && now < issued + WINDOW
              && ModelAvailable(env, lookup, scope.model)
              && db.ready && RevisionText(db, scope) == revision
              && scope.model in db.profiles && db.profiles[scope.model].status == Ready
  {
    hide Returns, Token, Faithful, Matching, FullOf;
    ReadToken(env.codec, CursorAt(env, req, scope, revision, last, issued), now);
  }

  // ---- A chain of pages over a run ---------------------------------------------------------------

  /** One call: the states its two reads saw, the request, the clock, and the answer. */
  datatype Call = Call(lookup: nat, read: nat, req: Request, now: int, response: Response)

  ghost predicate Answered(env: Env, db: Db, steps: seq<Step>, c: Call) {
    && c.lookup <= c.read <= |steps| && 1 <= c.req.limit <= MAX_LIMIT
    && c.response == List(env, Run(db, steps[..c.lookup]), Run(db, steps[..c.read]), c.req, c.now)
    && c.response.Page?
  }

  /** Each call continues the one before it, for the same reader, at a later time. */
  ghost predicate Continues(a: Call, b: Call) {
    && a.response.Page? && a.response.next.Some? && b.req.cursor == a.response.next && a.read <= b.read
    && b.req.workspace == a.req.workspace && b.req.subject == a.req.subject && b.req.limit == a.req.limit
  }

  ghost predicate Chain(env: Env, db: Db, steps: seq<Step>, calls: seq<Call>) {
    && calls != [] && calls[0].req.cursor.None?
    && (forall i :: 0 <= i < |calls| ==> Answered(env, db, steps, calls[i]))
    && (forall i :: 0 <= i < |calls| - 1 ==> Continues(calls[i], calls[i + 1]))
  }

  function Items(calls: seq<Call>): seq<Entry> {
    if calls == [] then []
    else Items(calls[..|calls| - 1]) + (if calls[|calls| - 1].response.Page? then calls[|calls| - 1].response.items else [])
  }

  /** An equal revision text means an equal listing, at any two states of a run. */
  lemma EqualRevisionEqualListing(db: Db, steps: seq<Step>, i: nat, j: nat, scope: Scope)
    requires i <= j <= |steps|
    requires RevisionText(Run(db, steps[..i]), scope) == RevisionText(Run(db, steps[..j]), scope)
    ensures FullOf(Run(db, steps[..i]), scope) == FullOf(Run(db, steps[..j]), scope)
  {
    hide Run, Decimal;
    DecimalInjective(Revision(Run(db, steps[..i]), scope), Revision(Run(db, steps[..j]), scope));
    EqualRevisionEqualRows(db, steps, i, j, scope);
  }

  lemma SameCursor(env: Env, a: Request, b: Request, scope: Scope, revision: string, last: Entry, issued: int)
    requires a.workspace == b.workspace && a.subject == b.subject && a.limit == b.limit
    ensures CursorAt(env, a, scope, revision, last, issued) == CursorAt(env, b, scope, revision, last, issued)
  {
  }

  /** What some calls have shown is the beginning of one listing, and the last of them is a
      page of it. */
  ghost predicate Shown(env: Env, db: Db, steps: seq<Step>, calls: seq<Call>, scope: Scope, revision: string,
                        all: seq<Entry>, issued: int)
  {
    && calls != []
    && var last := calls[|calls| - 1];
    && last.response.Page? && |last.response.items| <= |Items(calls)| <= |all|
    && Items(calls) == all[..|Items(calls)|]
    && PageAt(env, last.req, last.response, scope, revision, all, |Items(calls)| - |last.response.items|, issued)
  }

  lemma FirstCall(env: Env, db: Db, steps: seq<Step>, calls: seq<Call>)
    requires |calls| == 1 && Chain(env, db, steps, calls)
    ensures var scope := ScopeFor(env, calls[0].req);
            var start := Run(db, steps[..calls[0].read]);
            Shown(env, db, steps, calls, scope, RevisionText(start, scope), FullOf(start, scope), calls[0].now)
  {
    hide List, FullOf, RevisionText, Run;
    var c := calls[0];
    assert Answered(env, db, steps, c);
    FirstPage(env, Run(db, steps[..c.lookup]), Run(db, steps[..c.read]), c.req, c.now);
    assert calls[..0] == [];
    assert Items(calls) == c.response.items;
  }

  lemma NextCall(env: Env, db: Db, steps: seq<Step>, calls: seq<Call>, scope: Scope, revision: string, all: seq<Entry>, issued: int)
    requires Sensible(env) && |calls| > 1 && Sorted(all)
    requires Answered(env, db, steps, calls[|calls| - 1]) && Continues(calls[|calls| - 2], calls[|calls| - 1])
    requires Shown(env, db, steps, calls[..|calls| - 1], scope, revision, all, issued)
    ensures var d := calls[|calls| - 1];
            var db' := Run(db, steps[..d.read]);
            && RevisionText(db', scope) == revision && d.now < issued + WINDOW
            && (FullOf(db', scope) == all ==> Shown(env, db, steps, calls, scope, revision, all, issued))
  {
    hide List, FullOf, RevisionText, ScopeFor, Run, Sensible, Sorted, Token;
    var n := |calls| - 1;
    var before := calls[..n];
    var c, d := calls[n - 1], calls[n];
    assert before[|before| - 1] == c;
    var at := |Items(before)| - 1;
    SameCursor(env, c.req, d.req, scope, revision, all[at], issued);
    NextPage(env, Run(db, steps[..d.lookup]), Run(db, steps[..d.read]), d.req, d.now, scope, revision, all, at, issued);
    if FullOf(Run(db, steps[..d.read]), scope) == all {
      assert Items(calls) == Items(before) + d.response.items;
      assert d.response.items == all[at + 1..at + 1 + |d.response.items|];
      assert all[..|Items(calls)|] == all[..|Items(before)|] + all[|Items(before)|..|Items(calls)|];
    }
  }

  /** Everything a chain has shown so far is one listing's prefix, whatever was committed
      between the calls, and every call lies in the first page's window. */
  lemma {:induction false} ChainIsPrefix(env: Env, db: Db, steps: seq<Step>, calls: seq<Call>)
    requires Sensible(env) && Chain(env, db, steps, calls)
    ensures var scope := ScopeFor(env, calls[0].req);
            var start := Run(db, steps[..calls[0].read]);
            && Shown(env, db, steps, calls, scope, RevisionText(start, scope), FullOf(start, scope), calls[0].now)
            && FullOf(Run(db, steps[..calls[|calls| - 1].read]), scope) == FullOf(start, scope)
            && (|calls| > 1 ==> calls[|calls| - 1].now < calls[0].now + WINDOW)
  {
    hide List, PageAt, FullOf, RevisionText, ScopeFor, Run, Sensible, Shown, Answered, Continues;
    ReadsAscend(env, db, steps, calls, |calls| - 1);
    if |calls| == 1 {
      FirstCall(env, db, steps, calls);
    } else {
      var n := |calls| - 1;
      var scope := ScopeFor(env, calls[0].req);
      var start := Run(db, steps[..calls[0].read]);
      ChainIsPrefix(env, db, steps, calls[..n]);
      SortedListing(start, scope);
      NextCall(env, db, steps, calls, scope, RevisionText(start, scope), FullOf(start, scope), calls[0].now);
      EqualRevisionEqualListing(db, steps, calls[0].read, calls[n].read, scope);
    }
  }

  lemma SortedListing(db: Db, scope: Scope)
    ensures Sorted(FullOf(db, scope))
  {
  }

  lemma {:induction false} ReadsAscend(env: Env, db: Db, steps: seq<Step>, calls: seq<Call>, i: nat)
    requires Chain(env, db, steps, calls) && i < |calls|
    ensures calls[0].read <= calls[i].read <= |steps|
  {
    assert Answered(env, db, steps, calls[i]);
    if i > 0 {
      ReadsAscend(env, db, steps, calls, i - 1);
      assert Continues(calls[i - 1], calls[i]);
    }
  }

  /** A chain that ends without error has listed one revision completely: no gap, no repeat,
      in the order of the list. */
  lemma ChainIsListing(env: Env, db: Db, steps: seq<Step>, calls: seq<Call>)
    requires Sensible(env) && Chain(env, db, steps, calls) && calls[|calls| - 1].response.next.None?
    ensures Items(calls) == FullOf(Run(db, steps[..calls[0].read]), ScopeFor(env, calls[0].req))
    ensures Items(calls) == FullOf(Run(db, steps[..calls[|calls| - 1].read]), ScopeFor(env, calls[0].req))
  {
    hide List, FullOf, RevisionText;
    ChainIsPrefix(env, db, steps, calls);
  }
}
