/** Pages of the document list: the order of a list, the rows after a position, and the list
    service with its cursors and error codes. */
module Listing {
  import opened Text
  import opened Store
  import opened CursorToken

  // ---- The order of a list ---------------------------------------------------------------

  /** One listed document. */
  datatype Entry = Entry(id: string, public: Public)

  /** `ORDER BY last_ingested_at DESC NULLS LAST, doc_id COLLATE "C" ASC`. */
  predicate Before(a: Entry, b: Entry) {
    match (a.public.time, b.public.time)
    case (Some(s), Some(t)) => s > t || (s == t && TextLess(a.id, b.id))
    case (Some(_), None) => true
    case (None, Some(_)) => false
    case (None, None) => TextLess(a.id, b.id)
  }

  predicate Sorted(s: seq<Entry>) {
    forall i, j :: 0 <= i < j < |s| ==> Before(s[i], s[j])
  }

  lemma BeforeIrreflexive(a: Entry)
    ensures !Before(a, a)
  {
    TextLessIrreflexive(a.id);
  }

  lemma BeforeTransitive(a: Entry, b: Entry, c: Entry)
    requires Before(a, b) && Before(b, c)
    ensures Before(a, c)
  {
    if TextLess(a.id, b.id) && TextLess(b.id, c.id) {
      TextLessTransitive(a.id, b.id, c.id);
    }
  }

  lemma BeforeTotal(a: Entry, b: Entry)
    requires a.id != b.id
    ensures Before(a, b) || Before(b, a)
  {
    TextLessTotal(a.id, b.id);
  }

  // ---- The full listing of a set of rows -----------------------------------------------------

  function KeyOf(scope: Scope, id: string): DocKey {
    DocKey(scope.workspace, scope.chunking, id)
  }

  ghost predicate OfScope(rows: map<DocKey, Public>, scope: Scope) {
    forall k :: k in rows ==> InScope(k, scope)
  }

  /** A sorted sequence that lists exactly the given rows. */
  ghost predicate Lists(rows: map<DocKey, Public>, scope: Scope, s: seq<Entry>) {
    && Sorted(s)
    && (forall e :: e in s ==> KeyOf(scope, e.id) in rows && rows[KeyOf(scope, e.id)] == e.public)
    && (forall k :: k in rows ==> Entry(k.doc, rows[k]) in s)
  }

  function Inserted(e: Entry, s: seq<Entry>): seq<Entry> {
    if s == [] || Before(e, s[0]) then [e] + s else [s[0]] + Inserted(e, s[1..])
  }

  lemma {:induction false} InsertedIsSorted(e: Entry, s: seq<Entry>)
    requires Sorted(s) && forall x :: x in s ==> x.id != e.id
    ensures Sorted(Inserted(e, s)) && forall x :: x in Inserted(e, s) <==> x == e || x in s
    decreases |s|
  {
    if s == [] {
    } else if Before(e, s[0]) {
      forall j | 0 < j < |s| ensures Before(e, s[j]) {
        BeforeTransitive(e, s[0], s[j]);
      }
    } else {
      BeforeTotal(e, s[0]);
      assert forall x :: x in s[1..] ==> x in s;
      InsertedIsSorted(e, s[1..]);
      var r := Inserted(e, s[1..]);
      forall j | 0 <= j < |r| ensures Before(s[0], r[j]) {
        assert r[j] in r;
      }
      assert s == [s[0]] + s[1..];
    }
  }

  lemma {:induction false} ListingExists(rows: map<DocKey, Public>, scope: Scope) returns (s: seq<Entry>)
    requires OfScope(rows, scope)
    ensures Lists(rows, scope, s)
    decreases |rows|
  {
    if rows == map[] {
      s := [];
    } else {
      var k :| k in rows;
      var rest := rows - {k};
      assert |rest.Keys| < |rows.Keys| by {
        assert rest.Keys == rows.Keys - {k};
      }
      var t := ListingExists(rest, scope);
      var e := Entry(k.doc, rows[k]);
      InsertedIsSorted(e, t);
      s := Inserted(e, t);
      assert k == KeyOf(scope, k.doc);
    }
  }

  lemma SomeListing(rows: map<DocKey, Public>, scope: Scope)
    requires OfScope(rows, scope)
    ensures exists s :: Lists(rows, scope, s)
  {
    var s := ListingExists(rows, scope);
  }

  lemma {:induction false} SortedUnique(s: seq<Entry>, t: seq<Entry>)
    requires Sorted(s) && Sorted(t) && forall e :: e in s <==> e in t
    ensures s == t
    decreases |s|
  {
    assert t != [] ==> t[0] in s;
    if s == [] {
      assert t == [];
    } else {
      assert s[0] in t && t[0] in s;
      FirstIsLeast(s, t[0]);
      FirstIsLeast(t, s[0]);
      if s[0] != t[0] {
        BeforeTransitive(s[0], t[0], s[0]);
        BeforeIrreflexive(s[0]);
      }
      forall e ensures e in s[1..] <==> e in t[1..] {
        TailMembers(s, e);
        TailMembers(t, e);
      }
      SortedUnique(s[1..], t[1..]);
      assert s == [s[0]] + s[1..] && t == [t[0]] + t[1..];
    }
  }

  lemma FirstIsLeast(s: seq<Entry>, e: Entry)
    requires Sorted(s) && e in s
    ensures s[0] == e || Before(s[0], e)
  {
  }

  lemma TailMembers(s: seq<Entry>, e: Entry)
    requires Sorted(s) && s != []
    ensures e in s[1..] <==> e in s && e != s[0]
  {
    BeforeIrreflexive(s[0]);
  }

  /** The full listing: the only sorted sequence of the rows. */
  ghost function Full(rows: map<DocKey, Public>, scope: Scope): (s: seq<Entry>)
    requires OfScope(rows, scope)
    ensures Lists(rows, scope, s)
  {
    SomeListing(rows, scope);
    var s :| Lists(rows, scope, s);
    s
  }

  lemma FullIsUnique(rows: map<DocKey, Public>, scope: Scope, s: seq<Entry>)
    requires OfScope(rows, scope) && Lists(rows, scope, s)
    ensures s == Full(rows, scope)
  {
    var f := Full(rows, scope);
    forall e ensures e in s <==> e in f {
      assert e in s ==> e == Entry(KeyOf(scope, e.id).doc, rows[KeyOf(scope, e.id)]);
      assert e in f ==> e == Entry(KeyOf(scope, e.id).doc, rows[KeyOf(scope, e.id)]);
    }
    SortedUnique(s, f);
  }

  ghost function FullOf(db: Db, scope: Scope): seq<Entry> {
    Full(PublicRows(db, scope), scope)
  }

  // ---- The rows after a position ---------------------------------------------------------------

  datatype Position = Position(id: string, time: Option<int>)

  /** The keyset condition of the page query, clause by clause. */
  predicate Selected(e: Entry, last: Option<Position>) {
    || last.None?
    || (last.value.time.None? && e.public.time.None? && TextLess(last.value.id, e.id))
    || (last.value.time.Some?
        && (|| e.public.time.None?
            || e.public.time.value < last.value.time.value
            || (e.public.time.value == last.value.time.value && TextLess(last.value.id, e.id))))
  }

  function Matching(s: seq<Entry>, last: Option<Position>): seq<Entry> {
    if s == [] then []
    else (if Selected(s[0], last) then [s[0]] else []) + Matching(s[1..], last)
  }

  function PositionOf(e: Entry): Position {
    Position(e.id, e.public.time)
  }

  lemma {:induction false} MatchAll(s: seq<Entry>, last: Option<Position>)
    requires forall i :: 0 <= i < |s| ==> Selected(s[i], last)
    ensures Matching(s, last) == s
    decreases |s|
  {
    if s != [] {
      MatchAll(s[1..], last);
    }
  }

  /** The condition selects exactly the strict suffix after the row the position was read from. */
  lemma {:induction false} MatchingIsSuffix(s: seq<Entry>, k: nat)
    requires Sorted(s) && k < |s|
    ensures Matching(s, Some(PositionOf(s[k]))) == s[k + 1..]
    decreases |s|
  {
    var last := Some(PositionOf(s[k]));
    if k == 0 {
      BeforeIrreflexive(s[0]);
      assert forall i :: 1 <= i < |s| ==> Before(s[0], s[i]);
      MatchAll(s[1..], last);
    } else {
      assert !Selected(s[0], last) by {
        if Before(s[k], s[0]) {
          BeforeTransitive(s[0], s[k], s[0]);
          BeforeIrreflexive(s[0]);
        }
      }
      MatchingIsSuffix(s[1..], k - 1);
      assert s[1..][k..] == s[k + 1..];
    }
  }

  // ---- The service --------------------------------------------------------------------------------

  /** Settings and library functions the service uses. */
  datatype Env = Env(
    enabled: bool, defaultModel: string, defaultChunking: string, chunkings: set<string>, fits: string -> bool,
    subject: string -> string, codec: Codec, iso: int -> string, instant: string -> int)

  /** Dates read back as they were written, with their zone; texts of numbers are digits. */
  ghost predicate Sensible(env: Env) {
    && Faithful(env.codec)
    && (forall t: int :: env.instant(env.iso(t)) == t && env.iso(t) != "" && env.codec.zoned(env.iso(t)))
    && (forall ch: char :: IsDigit(ch) ==> env.codec.digit(ch))
  }

  datatype Request = Request(
    workspace: string, subject: string, limit: nat, cursor: Option<string>, model: Option<string>, chunking: Option<string>)

  datatype Response =
    | Error(status: int)
    | Page(scope: Scope, revision: string, items: seq<Entry>, hasMore: bool, next: Option<string>)

  /** `given or fallback`. */
  function OrElse(given: Option<string>, fallback: string): string {
    if given.Some? && given.value != "" then given.value else fallback
  }

  predicate Truthy(given: Option<string>) {
    given.Some? && given.value != ""
  }

  function ScopeFor(env: Env, req: Request): Scope {
    Scope(req.workspace, OrElse(req.model, env.defaultModel), OrElse(req.chunking, env.defaultChunking))
  }

  /** The checks of a decoded cursor against the request, in order. */
  function CursorError(env: Env, req: Request, k: Cursor, now: int): Option<int> {
    var scope := ScopeFor(env, req);
    if k.workspace != req.workspace || k.subject != env.subject(req.subject) || k.limit != req.limit then Some(422)
    else if k.model != scope.model || k.chunking != scope.chunking then
      if (k.model != scope.model && req.model.Some?) || (k.chunking != scope.chunking && req.chunking.Some?) then Some(422) else Some(409)
    else if now >= k.expires then Some(409)
    else None
  }

  /** `str(revision or 0)`. */
  function RevisionText(db: Db, scope: Scope): string {
    Decimal(Revision(db, scope))
  }

  function LastOf(env: Env, k: Option<Cursor>): Option<Position> {
    match k
    case None => None
    case Some(c) =>
      Some(Position(c.lastId, match c.lastTime case Some(t) => (if t != "" then Some(env.instant(t)) else None) case None => None))
  }

  function Taken(s: seq<Entry>, n: nat): seq<Entry> {
    if |s| <= n then s else s[..n]
  }

  /** The store's page: readiness and revision are read in the same snapshot as the rows. */
  ghost function StorePage(env: Env, db: Db, scope: Scope, limit: nat, k: Option<Cursor>): Response {
    if !db.ready then Error(503)
    else if k.Some? && k.value.revision != RevisionText(db, scope) then Error(409)
    else if scope.model !in db.profiles || db.profiles[scope.model].status != Ready then Error(503)
    else Page(scope, RevisionText(db, scope), Taken(Matching(FullOf(db, scope), LastOf(env, k)), limit + 1), false, None)
  }

  function CursorAfter(env: Env, req: Request, k: Option<Cursor>, revision: string, last: Entry, now: int): Cursor {
    var scope := ScopeFor(env, req);
    Cursor(req.workspace, scope.model, scope.chunking, env.subject(req.subject), req.limit, revision, last.id,
           match last.public.time case Some(t) => Some(env.iso(t)) case None => None,
           if k.Some? then k.value.issued else now, if k.Some? then k.value.expires else now + WINDOW)
  }

  /** The last step: one row more than asked for means there is a next page. */
  function Trimmed(env: Env, req: Request, k: Option<Cursor>, page: Response, now: int): Response
    requires page.Page? && req.limit > 0
  {
    if |page.items| > req.limit then
      var items := page.items[..req.limit];
      page.(items := items, hasMore := true,
            next := Some(Token(env.codec, CursorAfter(env, req, k, page.revision, items[req.limit - 1], now))))
    else page
  }

  function ModelAvailable(env: Env, db: Db, model: string): bool {
    model in db.profiles && db.profiles[model].status == Ready && env.fits(model)
  }

  /** `DocumentCatalogService.list`: the profile is looked up in one state, the page read in a
      later one. */
  ghost function List(env: Env, lookup: Db, db: Db, req: Request, now: int): Response
    requires 1 <= req.limit <= MAX_LIMIT
  {
    var scope := ScopeFor(env, req);
    var k := if req.cursor.Some? then Read(env.codec, req.cursor.value, now) else None;
    if !env.enabled then Error(503)
    else if req.cursor.Some? && k.None? then Error(422)
    else if scope.chunking !in env.chunkings then Error(if Truthy(req.chunking) then 422 else 503)
    else if k.Some? && CursorError(env, req, k.value, now).Some? then Error(CursorError(env, req, k.value, now).value)
    else if !ModelAvailable(env, lookup, scope.model) then Error(if Truthy(req.model) then 422 else 503)
    else
      var page := StorePage(env, db, scope, req.limit, k);
      if page.Error? then page else Trimmed(env, req, k, page, now)
  }
}
