/** The browser's document list: how pages are accumulated, and what is shown at any time. */
module Browser {
  import opened Text
  import opened Store
  import opened CursorToken
  import opened Runs
  import opened Revisions
  import opened Listing
  import opened Traversal

  const PAGE_LIMIT: nat := 25

  /** What the browser keeps: the items so far and where to go on. */
  datatype Catalog = Catalog(scope: Scope, revision: string, items: seq<Entry>, next: Option<string>)

  /** How one request ends.  `denied` is the error code `auth_request_denied`. */
  datatype Answer = Got(page: Catalog) | ApiError(status: int, denied: bool) | OtherError

  /** `cursor ? { cursor } : {}`: an empty cursor is not sent. */
  function Sent(cursor: Option<string>): Option<string> {
    if cursor == Some("") then None else cursor
  }

  /** The response checks of `getDocuments`: a document without an id is a protocol error. */
  function Accepted(r: Response): Answer {
    match r
    case Error(status) => ApiError(status, false)
    case Page(scope, revision, items, hasMore, next) =>
      if (exists i :: 0 <= i < |items| && items[i].id == "") || hasMore != next.Some? || next == Some("") then ApiError(500, false)
      else Got(Catalog(scope, revision, items, next))
  }

  predicate Shows(items: seq<Entry>, id: string) {
    exists i :: 0 <= i < |items| && items[i].id == id
  }

  /** `result.items.filter(item => !previous.items.some(old => old.docId === item.docId))`. */
  function Fresh(previous: seq<Entry>, items: seq<Entry>): seq<Entry> {
    if items == [] then []
    else (if Shows(previous, items[0].id) then [] else [items[0]]) + Fresh(previous, items[1..])
  }

  /** The cursor of the first request. */
  function Wanted(previous: Option<Catalog>, more: bool): Option<string> {
    if more && previous.Some? then previous.value.next else None
  }

  /** What the first request alone comes to; a changed list counts as status 409. */
  function FirstResult(previous: Option<Catalog>, more: bool, first: Answer): Answer {
    match first
    case Got(page) =>
      if !more || previous.None? then first
      else if page.revision != previous.value.revision || page.scope != previous.value.scope then ApiError(409, false)
      else Got(page.(items := previous.value.items + Fresh(previous.value.items, page.items)))
    case _ => first
  }

  predicate ListChanged(a: Answer) {
    a.ApiError? && a.status == 409
  }

  /** The outcome of one load: its answer, the cursors it asked for, and whether the old list
      was given up on the way. */
  datatype Load = Load(answer: Answer, asked: seq<Option<string>>, restarted: bool)

  /** `loadDocumentCatalog`: a second request only after a 409, and then from the start. */
  function LoadCatalog(previous: Option<Catalog>, more: bool, first: Answer, second: Answer): (r: Load)
    ensures 1 <= |r.asked| <= 2 && (r.restarted <==> |r.asked| == 2)
    ensures r.restarted ==> r.asked[1] == None && r.answer == second
    ensures r.restarted <==> ListChanged(FirstResult(previous, more, first))
  {
    var result := FirstResult(previous, more, first);
    if ListChanged(result) then Load(second, [Wanted(previous, more), None], true)
    else Load(result, [Wanted(previous, more)], false)
  }

  /** The server as a loader sees it: each request, with its cursor, is answered once. */
  class DocumentServer {
    const answers: (nat, Option<string>) -> Answer
    var asked: seq<Option<string>>

    constructor (answers: (nat, Option<string>) -> Answer)
      ensures this.answers == answers && asked == []
    {
      this.answers, asked := answers, [];
    }

    method GetDocuments(cursor: Option<string>) returns (a: Answer)
      modifies this`asked
      ensures asked == old(asked) + [cursor] && a == answers(|old(asked)|, cursor)
    {
      a := answers(|asked|, cursor);
      asked := asked + [cursor];
    }
  }

  /** `loadDocumentCatalog` against a server: what it asks, and what comes of the answers. */
  method LoadDocumentCatalog(server: DocumentServer, previous: Option<Catalog>, more: bool) returns (answer: Answer, restarted: bool)
    modifies server`asked
    ensures |old(server.asked)| + 1 <= |server.asked| <= |old(server.asked)| + 2
    ensures server.asked[..|old(server.asked)|] == old(server.asked)
    ensures server.asked[|old(server.asked)|] == Wanted(previous, more)
    ensures var n := |old(server.asked)|;
            var first := server.answers(n, Wanted(previous, more));
            && (restarted <==> |server.asked| == n + 2)
            && (restarted ==> server.asked[n + 1] == None && answer == server.answers(n + 1, None))
            && (!restarted ==> answer == FirstResult(previous, more, first) && !ListChanged(answer))
            && Load(answer, server.asked[n..], restarted) == LoadCatalog(previous, more, first, server.answers(n + 1, None))
  {
    restarted := false;
    answer := server.GetDocuments(Wanted(previous, more));
    if answer.Got? && more && previous.Some? {
      var page := answer.page;
      if page.revision != previous.value.revision || page.scope != previous.value.scope {
        answer := ApiError(409, false);
      } else {
        answer := Got(page.(items := previous.value.items + Fresh(previous.value.items, page.items)));
      }
    }
    if ListChanged(answer) {
      restarted := true;
      answer := server.GetDocuments(None);
    }
  }

  /** The panel around it: a page replaces the catalog, a restart or a refusal clears it, any
      other error keeps it, a denied authentication among them. */
  function Panel(state: Option<Catalog>, more: bool, first: Answer, second: Answer): Option<Catalog> {
    if more && (state.None? || state.value.next.None? || state.value.next == Some("")) then state
    else
      var r := LoadCatalog(state, more, first, second);
      match r.answer
      case Got(page) => Some(page)
      case ApiError(status, denied) => if r.restarted || (!denied && (status == 401 || status == 403)) then None else state
      case OtherError => if r.restarted then None else state
  }

  // ---- What one load does -----------------------------------------------------------------------

  /** A response is taken for a page if each document has an id, and there is a cursor, which is not
      empty, exactly if there is more; any other page is a protocol error. */
  lemma WhatIsAccepted(r: Response)
    ensures forall c :: Accepted(r) == Got(c) <==>
              && r.Page? && (forall e :: e in r.items ==> |e.id| > 0)
              && (if r.hasMore then r.next.Some? && |r.next.value| > 0 else r.next.None?)
              && c == Catalog(r.scope, r.revision, r.items, r.next)
    ensures r.Error? ==> Accepted(r) == ApiError(r.status, false)
    ensures r.Page? && !Accepted(r).Got? ==> Accepted(r) == ApiError(500, false)
  {
    if r.Page? && forall e :: e in r.items ==> |e.id| > 0 {
      assert forall i :: 0 <= i < |r.items| ==> r.items[i] in r.items;
    }
  }

  /** These are the documents of the page that were not shown before, in their order. */
  ghost predicate NewOnes(previous: seq<Entry>, items: seq<Entry>, at: seq<nat>, added: seq<Entry>) {
    && |at| == |added| && (forall i, j :: 0 <= i < j < |at| ==> at[i] < at[j])
    && (forall i :: 0 <= i < |at| ==> at[i] < |items| && added[i] == items[at[i]])
    && forall j: nat :: j in at <==> j < |items| && forall e :: e in previous ==> e.id != items[j].id
  }

  lemma {:induction false} FreshOneMore(previous: seq<Entry>, items: seq<Entry>, e: Entry)
    ensures Fresh(previous, items + [e]) == Fresh(previous, items) + if Shows(previous, e.id) then [] else [e]
    decreases |items|
  {
    if items == [] {
      assert [e][1..] == [];
    } else {
      FreshOneMore(previous, items[1..], e);
      assert (items + [e])[1..] == items[1..] + [e];
    }
  }

  lemma NewOneMore(previous: seq<Entry>, items: seq<Entry>, e: Entry, at: seq<nat>, added: seq<Entry>)
    requires NewOnes(previous, items, at, added)
    ensures if Shows(previous, e.id) then NewOnes(previous, items + [e], at, added) else NewOnes(previous, items + [e], at + [|items|], added + [e])
  {
    assert Shows(previous, e.id) <==> !(forall p :: p in previous ==> p.id != e.id);
  }

  lemma {:induction false} FreshMeans(previous: seq<Entry>, items: seq<Entry>) returns (at: seq<nat>)
    ensures NewOnes(previous, items, at, Fresh(previous, items))
    decreases |items|
  {
    hide NewOnes, Shows;
    if items == [] {
      at := [];
      NothingNew(previous);
    } else {
      var n := |items| - 1;
      at := FreshMeans(previous, items[..n]);
      assert items == items[..n] + [items[n]];
      FreshOneMore(previous, items[..n], items[n]);
      NewOneMore(previous, items[..n], items[n], at, Fresh(previous, items[..n]));
      if Shows(previous, items[n].id) {
        assert Fresh(previous, items[..n]) + [] == Fresh(previous, items[..n]);
      } else {
        at := at + [n];
      }
    }
  }

  lemma NothingNew(previous: seq<Entry>)
    ensures NewOnes(previous, [], [], [])
  {
  }

  /** The old list, and the new page under it. */
  ghost predicate Appended(previous: Catalog, page: Catalog, result: Catalog) {
    && result.scope == page.scope && result.revision == page.revision && result.next == page.next
    && exists at, added :: NewOnes(previous.items, page.items, at, added) && result.items == previous.items + added
  }

  /** A load asks for the page after the old list, or for the first; if the server says that the list has
      changed, or the page is of another list, it starts over, once.  Otherwise a first page is taken
      as it is, and a further one is appended. */
  lemma WhatALoadComesTo(previous: Option<Catalog>, more: bool, first: Answer, second: Answer)
    ensures var l := LoadCatalog(previous, more, first, second);
            var further := more && previous.Some?;
            var cursor := if further then previous.value.next else None;
            var changed := first.Got? && further && !(first.page.revision == previous.value.revision && first.page.scope == previous.value.scope);
            var conflict := first.ApiError? && first.status == 409;
            && (l.restarted <==> changed || conflict)
            && l.asked == (if l.restarted then [cursor, None] else [cursor])
            && (l.restarted ==> l.answer == second)
            && (!l.restarted && first.Got? && further ==> l.answer.Got? && Appended(previous.value, first.page, l.answer.page))
            && (!l.restarted && !(first.Got? && further) ==> l.answer == first)
  {
    hide NewOnes;
    if more && previous.Some? && first.Got? {
      var at := FreshMeans(previous.value.items, first.page.items);
    }
  }

  /** The panel asks for more only if there is more.  It then shows the loaded list; without one it gives
      up the old list after a restart, or when the server says that the reader has no access; and
      keeps it after any other failure. */
  lemma WhatThePanelShows(state: Option<Catalog>, more: bool, first: Answer, second: Answer)
    ensures var r := Panel(state, more, first, second);
            var l := LoadCatalog(state, more, first, second);
            var idle := more && !(state.Some? && state.value.next.Some? && |state.value.next.value| > 0);
            && (idle ==> r == state)
            && (!idle && l.answer.Got? ==> r == Some(l.answer.page))
            && (!idle && !l.answer.Got? && (l.restarted || (l.answer.ApiError? && !l.answer.denied && l.answer.status in {401, 403})) ==> r == None)
            && (!idle && !l.answer.Got? && !l.restarted && !(l.answer.ApiError? && !l.answer.denied && l.answer.status in {401, 403}) ==> r == state)
  {
    hide LoadCatalog;
  }

  // ---- De-duplication ------------------------------------------------------------------------

  ghost predicate NoRepeats(items: seq<Entry>) {
    forall i, j :: 0 <= i < j < |items| ==> items[i].id != items[j].id
  }

  lemma {:induction false} FreshOfFresh(previous: seq<Entry>, items: seq<Entry>)
    requires forall i :: 0 <= i < |items| ==> !Shows(previous, items[i].id)
    ensures Fresh(previous, items) == items
    decreases |items|
  {
    if items != [] {
      FreshOfFresh(previous, items[1..]);
    }
  }

  lemma {:induction false} FreshOfKnown(previous: seq<Entry>, items: seq<Entry>)
    requires forall i :: 0 <= i < |items| ==> Shows(previous, items[i].id)
    ensures Fresh(previous, items) == []
    decreases |items|
  {
    if items != [] {
      FreshOfKnown(previous, items[1..]);
    }
  }

  lemma ListingHasNoRepeats(db: Db, scope: Scope)
    ensures NoRepeats(FullOf(db, scope))
  {
    var all := FullOf(db, scope);
    var rows := PublicRows(db, scope);
    forall i, j | 0 <= i < j < |all| ensures all[i].id != all[j].id {
      BeforeIrreflexive(all[i]);
      assert all[i] in all && all[j] in all;
      assert all[i] == Entry(all[i].id, rows[KeyOf(scope, all[i].id)]);
      assert all[j] == Entry(all[j].id, rows[KeyOf(scope, all[j].id)]);
    }
  }

  /** Two consecutive stretches of a listing: nothing in the second is in the first. */
  lemma NothingToFilter(all: seq<Entry>, m: nat, n: nat)
    requires NoRepeats(all) && m <= n <= |all|
    ensures Fresh(all[..m], all[m..n]) == all[m..n]
  {
    FreshOfFresh(all[..m], all[m..n]);
  }

  // ---- What is shown -----------------------------------------------------------------------------

  /** The catalog is the beginning of one listing and its cursor stands where it ends. */
  ghost predicate Holds(env: Env, req: Request, all: seq<Entry>, issued: int, c: Catalog) {
    && |c.items| <= |all| && c.items == all[..|c.items|]
    && (c.next.Some? <==> |c.items| < |all|)
    && c.scope.workspace == req.workspace
    && (c.next.Some? ==>
          |c.items| > 0 && c.next.value == Token(env.codec, CursorAt(env, req, c.scope, c.revision, all[|c.items| - 1], issued)))
  }

  /** The requests the browser makes for one reader and one workspace. */
  function RequestFor(workspace: string, subject: string, cursor: Option<string>): Request {
    Request(workspace, subject, PAGE_LIMIT, Sent(cursor), None, None)
  }

  lemma FirstPageHolds(env: Env, lookup: Db, db: Db, workspace: string, subject: string, now: int)
    ensures var req := RequestFor(workspace, subject, None);
            var a := Accepted(List(env, lookup, db, req, now));
            a.Got? ==>
              && a.page.scope == ScopeFor(env, req) && a.page.revision == RevisionText(db, a.page.scope)
              && Holds(env, req, FullOf(db, a.page.scope), now, a.page)
  {
    hide List, FullOf, RevisionText, Token, ScopeFor;
    var req := RequestFor(workspace, subject, None);
    if Accepted(List(env, lookup, db, req, now)).Got? {
      FirstPage(env, lookup, db, req, now);
    }
  }

  /** One more page on a catalog that holds: the filter has nothing to do, the result holds
      again, and the only possible mismatch has already been refused by the server. */
  lemma MorePageHolds(env: Env, lookup: Db, db: Db, workspace: string, subject: string, now: int,
                      all: seq<Entry>, issued: int, c: Catalog)
    requires Sensible(env) && Sorted(all) && NoRepeats(all) && c.next.Some? && c.next != Some("")
    requires Holds(env, RequestFor(workspace, subject, None), all, issued, c)
    requires RevisionText(db, c.scope) == c.revision ==> FullOf(db, c.scope) == all
    ensures var a := Accepted(List(env, lookup, db, RequestFor(workspace, subject, c.next), now));
            a.Got? ==>
              && a.page.revision == c.revision && a.page.scope == c.scope && RevisionText(db, c.scope) == c.revision
              && Fresh(c.items, a.page.items) == a.page.items
              && FirstResult(Some(c), true, a) == Got(a.page.(items := c.items + a.page.items))
              && Holds(env, RequestFor(workspace, subject, None), all, issued, a.page.(items := c.items + a.page.items))
  {
    hide List, FullOf, RevisionText, Token, ScopeFor, Sorted, NoRepeats, Sensible;
    var req := RequestFor(workspace, subject, c.next);
    var r := List(env, lookup, db, req, now);
    if Accepted(r).Got? {
      var at := |c.items| - 1;
      SameCursor(env, RequestFor(workspace, subject, None), req, c.scope, c.revision, all[at], issued);
      NextPage(env, lookup, db, req, now, c.scope, c.revision, all, at, issued);
      assert PageAt(env, req, r, c.scope, c.revision, all, at + 1, issued);
      var n := |c.items| + |r.items|;
      NothingToFilter(all, |c.items|, n);
      assert all[..n] == all[..|c.items|] + all[|c.items|..n];
      if n < |all| {
        SameCursor(env, RequestFor(workspace, subject, None), req, c.scope, c.revision, all[n - 1], issued);
      }
    }
  }

  // ---- A whole browsing session over a run ------------------------------------------------------------

  /** Where a request's answer comes from: the server, in two states of the run, or elsewhere. */
  datatype Reply = Served(lookup: nat, read: nat, now: int) | Broken(answer: Answer)

  /** One user action: refresh or more, and the replies to its at most two requests. */
  datatype Action = Action(more: bool, first: Reply, second: Reply)

  ghost function AnswerTo(env: Env, db: Db, steps: seq<Step>, r: Reply, req: Request): Answer
    requires 1 <= req.limit <= MAX_LIMIT
  {
    match r
    case Broken(a) => if a.Got? then OtherError else a
    case Served(lookup, read, now) =>
      if lookup <= read <= |steps| then Accepted(List(env, Run(db, steps[..lookup]), Run(db, steps[..read]), req, now))
      else OtherError
  }

  ghost function Acted(env: Env, db: Db, steps: seq<Step>, workspace: string, subject: string,
                       state: Option<Catalog>, a: Action): Option<Catalog>
  {
    Panel(state, a.more,
          AnswerTo(env, db, steps, a.first, RequestFor(workspace, subject, Wanted(state, a.more))),
          AnswerTo(env, db, steps, a.second, RequestFor(workspace, subject, None)))
  }

  ghost function Browsed(env: Env, db: Db, steps: seq<Step>, workspace: string, subject: string,
                         actions: seq<Action>): Option<Catalog>
  {
    if actions == [] then None
    else Acted(env, db, steps, workspace, subject,
               Browsed(env, db, steps, workspace, subject, actions[..|actions| - 1]), actions[|actions| - 1])
  }

  function ReadOr(from: nat, r: Reply): nat {
    if r.Served? && from < r.read then r.read else from
  }

  function Horizon(actions: seq<Action>): nat {
    if actions == [] then 0
    else
      var a := actions[|actions| - 1];
      ReadOr(ReadOr(Horizon(actions[..|actions| - 1]), a.first), a.second)
  }

  /** Requests are served in the order in which they are made. */
  ghost predicate InOrder(actions: seq<Action>) {
    actions == [] ||
    var h := Horizon(actions[..|actions| - 1]);
    var a := actions[|actions| - 1];
    && InOrder(actions[..|actions| - 1])
    && (a.first.Served? ==> h <= a.first.read)
    && (a.second.Served? ==> ReadOr(h, a.first) <= a.second.read)
  }

  /** The catalog is the beginning of the listing of one state that was read. */
  ghost predicate TrueOf(env: Env, db: Db, steps: seq<Step>, workspace: string, subject: string, read: nat, issued: int, c: Catalog) {
    && read <= |steps| && c.revision == RevisionText(Run(db, steps[..read]), c.scope)
    && Holds(env, RequestFor(workspace, subject, None), FullOf(Run(db, steps[..read]), c.scope), issued, c)
  }

  ghost predicate Truthful(env: Env, db: Db, steps: seq<Step>, workspace: string, subject: string, horizon: nat, state: Option<Catalog>) {
    state.Some? ==> exists read: nat, issued: int :: read <= horizon && TrueOf(env, db, steps, workspace, subject, read, issued, state.value)
  }

  lemma FirstAnswerIsTrue(env: Env, db: Db, steps: seq<Step>, workspace: string, subject: string, r: Reply)
    ensures var a := AnswerTo(env, db, steps, r, RequestFor(workspace, subject, None));
            a.Got? ==> r.Served? && TrueOf(env, db, steps, workspace, subject, r.read, r.now, a.page)
  {
    hide List, FullOf, RevisionText, Run, Holds, ScopeFor, Accepted;
    if r.Served? && r.lookup <= r.read <= |steps| {
      FirstPageHolds(env, Run(db, steps[..r.lookup]), Run(db, steps[..r.read]), workspace, subject, r.now);
    }
  }

  lemma MoreAnswerIsTrue(env: Env, db: Db, steps: seq<Step>, workspace: string, subject: string, r: Reply,
                         read: nat, issued: int, c: Catalog)
    requires Sensible(env) && c.next.Some? && c.next != Some("")
    requires TrueOf(env, db, steps, workspace, subject, read, issued, c) && (r.Served? ==> read <= r.read)
    ensures var a := AnswerTo(env, db, steps, r, RequestFor(workspace, subject, c.next));
            a.Got? ==>
              && Fresh(c.items, a.page.items) == a.page.items
              && FirstResult(Some(c), true, a) == Got(a.page.(items := c.items + a.page.items))
              && TrueOf(env, db, steps, workspace, subject, read, issued, a.page.(items := c.items + a.page.items))
  {
    hide List, FullOf, RevisionText, Run, Holds, ScopeFor, Accepted, Sensible, FirstResult;
    if r.Served? && r.lookup <= r.read <= |steps| {
      var start, now := Run(db, steps[..read]), Run(db, steps[..r.read]);
      var all := FullOf(start, c.scope);
      SortedListing(start, c.scope);
      ListingHasNoRepeats(start, c.scope);
      if RevisionText(now, c.scope) == c.revision {
        EqualRevisionEqualListing(db, steps, read, r.read, c.scope);
      }
      MorePageHolds(env, Run(db, steps[..r.lookup]), now, workspace, subject, r.now, all, issued, c);
    }
  }

  lemma ActionKeepsTruth(env: Env, db: Db, steps: seq<Step>, workspace: string, subject: string,
                         h: nat, state: Option<Catalog>, a: Action)
    requires Sensible(env) && Truthful(env, db, steps, workspace, subject, h, state)
    requires (a.first.Served? ==> h <= a.first.read) && (a.second.Served? ==> ReadOr(h, a.first) <= a.second.read)
    ensures Truthful(env, db, steps, workspace, subject, ReadOr(ReadOr(h, a.first), a.second),
                     Acted(env, db, steps, workspace, subject, state, a))
  {
    hide List, FullOf, RevisionText, Run, Holds, ScopeFor, Accepted, Sensible, TrueOf, AnswerTo, Fresh;
    FirstAnswerIsTrue(env, db, steps, workspace, subject, a.second);
    if Wanted(state, a.more).None? {
      FirstAnswerIsTrue(env, db, steps, workspace, subject, a.first);
    } else {
      var c := state.value;
      var read: nat, issued: int :| read <= h && TrueOf(env, db, steps, workspace, subject, read, issued, c);
      if c.next != Some("") {
        MoreAnswerIsTrue(env, db, steps, workspace, subject, a.first, read, issued, c);
      }
    }
  }

  /** After any user actions, whatever was committed between and during them, the list shown is
      a repeat-free beginning of one listing of one revision in one scope. */
  lemma {:induction false} ListShownIsPrefix(env: Env, db: Db, steps: seq<Step>, workspace: string, subject: string, actions: seq<Action>)
    requires Sensible(env) && InOrder(actions)
    ensures var state := Browsed(env, db, steps, workspace, subject, actions);
            && Truthful(env, db, steps, workspace, subject, Horizon(actions), state)
            && (state.Some? ==> NoRepeats(state.value.items))
  {
    hide Acted, TrueOf, FullOf, RevisionText, Sensible;
    if actions != [] {
      var n := |actions| - 1;
      ListShownIsPrefix(env, db, steps, workspace, subject, actions[..n]);
      ActionKeepsTruth(env, db, steps, workspace, subject, Horizon(actions[..n]),
                       Browsed(env, db, steps, workspace, subject, actions[..n]), actions[n]);
      var state := Browsed(env, db, steps, workspace, subject, actions);
      if state.Some? {
        var read: nat, issued: int :| read <= Horizon(actions) && TrueOf(env, db, steps, workspace, subject, read, issued, state.value);
        TruthHasNoRepeats(env, db, steps, workspace, subject, read, issued, state.value);
      }
    }
  }

  lemma TruthHasNoRepeats(env: Env, db: Db, steps: seq<Step>, workspace: string, subject: string, read: nat, issued: int, c: Catalog)
    requires TrueOf(env, db, steps, workspace, subject, read, issued, c)
    ensures NoRepeats(c.items)
  {
    hide FullOf, RevisionText;
    ListingHasNoRepeats(Run(db, steps[..read]), c.scope);
  }

  lemma ScopeOfPage(env: Env, db: Db, steps: seq<Step>, workspace: string, subject: string, r: Reply, cursor: Option<string>)
    ensures var a := AnswerTo(env, db, steps, r, RequestFor(workspace, subject, cursor));
            a.Got? ==> a.page.scope == Scope(workspace, env.defaultModel, env.defaultChunking)
  {
    hide Run, FullOf, Matching, Token, Read;
  }

  /** The list shown is always that of the chosen workspace, under the default profiles. */
  lemma {:induction false} ShownScope(env: Env, db: Db, steps: seq<Step>, workspace: string, subject: string, actions: seq<Action>)
    ensures var state := Browsed(env, db, steps, workspace, subject, actions);
            state.Some? ==> state.value.scope == Scope(workspace, env.defaultModel, env.defaultChunking)
  {
    hide AnswerTo, Fresh, RequestFor;
    if actions != [] {
      var n := |actions| - 1;
      var before := Browsed(env, db, steps, workspace, subject, actions[..n]);
      ShownScope(env, db, steps, workspace, subject, actions[..n]);
      ScopeOfPage(env, db, steps, workspace, subject, actions[n].first, Wanted(before, actions[n].more));
      ScopeOfPage(env, db, steps, workspace, subject, actions[n].second, None);
    }
  }

  /** And its cursor, if there is more, was made for this reader, this workspace and pages of 25. */
  lemma ShownCursor(env: Env, db: Db, steps: seq<Step>, workspace: string, subject: string, actions: seq<Action>)
    requires Sensible(env) && InOrder(actions)
    ensures var state := Browsed(env, db, steps, workspace, subject, actions);
            state.Some? && state.value.next.Some? ==>
              exists k: Cursor :: && state.value.next.value == Token(env.codec, k)
                                  && k.workspace == workspace && k.subject == env.subject(subject) && k.limit == 25
  {
    hide FullOf, RevisionText, Sensible, Browsed, Token, Run;
    ListShownIsPrefix(env, db, steps, workspace, subject, actions);
    ShownScope(env, db, steps, workspace, subject, actions);
    var state := Browsed(env, db, steps, workspace, subject, actions);
    if state.Some? && state.value.next.Some? {
      var c := state.value;
      var read: nat, issued: int :| read <= Horizon(actions) && TrueOf(env, db, steps, workspace, subject, read, issued, c);
      var all := FullOf(Run(db, steps[..read]), c.scope);
      var k := CursorAt(env, RequestFor(workspace, subject, None), c.scope, c.revision, all[|c.items| - 1], issued);
      assert c.next.value == Token(env.codec, k);
    }
  }

  /** A request goes on where its cursor says, an empty one not being sent. */
  lemma WhatIsSent(workspace: string, subject: string, cursor: Option<string>)
    ensures var r := RequestFor(workspace, subject, cursor);
            && r.cursor == (if cursor.Some? && |cursor.value| > 0 then cursor else None) && r.limit == 25
            && r.model.None? && r.chunking.None? && r.workspace == workspace && r.subject == subject
  {
  }

  /** Asking for more at the end of a list, which the panel never does, reloads the first page:
      nothing is added, but the cursor goes back.  The result holds only if the list has one
      page. */
  lemma MoreAtTheEnd(env: Env, req: Request, all: seq<Entry>, issued: int, later: int, c: Catalog, page: Catalog)
    requires Holds(env, req, all, issued, c) && c.next.None?
    requires Holds(env, req, all, later, page) && page.scope == c.scope && page.revision == c.revision
    ensures FirstResult(Some(c), true, Got(page)) == Got(page.(items := c.items))
    ensures Holds(env, req, all, later, page.(items := c.items)) <==> page.next.None?
  {
    forall i | 0 <= i < |page.items| ensures Shows(c.items, page.items[i].id) {
      assert c.items[i] == page.items[i];
    }
    FreshOfKnown(c.items, page.items);
    assert c.items + [] == c.items;
  }
}
