/** The authentication gateway's handlers, for one browser: which records they create, consume,
    admit and revoke, which cookies they set and clear, and what that makes of every session
    token the browser has ever been given. */
module Gateway {
  import opened Text
  import opened Sessions

  // ---- Requests, responses, faults ---------------------------------------------------------

  /** A store call works, fails without effect, or takes effect and fails. */
  datatype Fault = Works | FailsBefore | FailsAfter

  datatype Change = Keep | Set(token: string, seconds: int) | Clear

  datatype Response = Response(status: int, session: Change, context: Change, login: Change)

  function Plain(status: int): Response {
    Response(status, Keep, Keep, Keep)
  }

  datatype Endpoint = OnStatus | OnLogin | OnCallback | OnDevLogin | OnLogout | OnAuthorize

  /** A request: its cookies ("" when absent), its headers as far as they matter, and what
      the parts outside the store answer. */
  datatype Request = Request(
    endpoint: Endpoint, session: string, context: string, login: string,
    plain: bool,          // no query parameters where none are allowed
    sameOrigin: bool, csrf: string,
    bodyStatus: int,      // of a development login: 0, 413, 415 or 422
    state: string,        // of a callback
    provider: int,        // the identity provider's answer: 0, 400 or 503
    fromProxy: bool, methodKnown: bool, unsafe: bool)

  /** What is random or comes from outside while a request is handled: a new token, a new CSRF
      token, the clock readings and the fate of each store call. */
  datatype World = World(token: string, csrf: string, clock: nat -> int, faults: nat -> Fault)

  const LAST: nat := 9
  const SHORT := 300

  ghost predicate Ticks(clock: nat -> int) {
    forall i: nat, j: nat :: i <= j ==> clock(i) <= clock(j)
  }

  // ---- Dead sessions --------------------------------------------------------------------------

  /** No admission can succeed for this token at this time or later. */
  predicate Dead(s: Records, hash: string, idle: int, now: int) {
    hash in s ==>
      s[hash].kind != Session || s[hash].revoked || s[hash].expiresAt <= now || s[hash].lastSeen + idle <= now
  }

  /** Records come only from their own past: nothing but `added` is new, kinds and expiries are
      fixed, and the dead stay dead. */
  ghost predicate Descends(after: Records, before: Records, added: string, idle: int, now: int) {
    && (forall h :: h in after && h != added ==>
          h in before && after[h].kind == before[h].kind && after[h].expiresAt == before[h].expiresAt)
    && (forall h :: h != added && Dead(before, h, idle, now) ==> Dead(after, h, idle, now))
  }

  lemma DescendsOn(a: Records, b: Records, c: Records, added: string, idle: int, now: int)
    requires Descends(b, a, added, idle, now) && Descends(c, b, added, idle, now)
    ensures Descends(c, a, added, idle, now)
  {
  }

  /** Any one operation at this time or later, unless it stores the token itself. */
  lemma StepDescends(s: Records, limit: nat, op: Op, added: string, idle: int, now: int)
    requires now <= TimeOf(op, now) && (op.Put? ==> op.record.hash == added) && (op.Admit? ==> op.idle == idle)
    ensures Descends(After(s, limit, op), s, added, idle, now)
  {
  }

  lemma DeadLater(s: Records, hash: string, idle: int, now: int, later: int)
    requires Dead(s, hash, idle, now) && now <= later
    ensures Dead(s, hash, idle, later)
  {
  }

  /** Dead means dead for good: whatever operations follow, as long as the token is not stored
      again, none of them admits it. */
  lemma {:induction false} DeadForever(s: Records, limit: nat, ops: seq<Op>, hash: string, idle: int, now: int)
    requires Dead(s, hash, idle, now)
    requires forall i :: 0 <= i < |ops| ==>
               && now <= TimeOf(ops[i], now) && !(ops[i].Put? && ops[i].record.hash == hash) && (ops[i].Admit? ==> ops[i].idle == idle)
    ensures Dead(Folded(s, limit, ops), hash, idle, now)
    ensures forall i :: 0 <= i < |ops| && ops[i].Admit? && ops[i].hash == hash ==>
              !CanAdmit(Folded(s, limit, ops[..i]), hash, ops[i].now, idle)
    decreases |ops|
  {
    hide After;
    if ops != [] {
      var n := |ops| - 1;
      forall i | 0 <= i <= n ensures ops[..n][..i] == ops[..i] {
      }
      DeadForever(s, limit, ops[..n], hash, idle, now);
      var t := Folded(s, limit, ops[..n]);
      StepDescends(t, limit, ops[n], if ops[n].Put? then ops[n].record.hash else hash + "x", idle, now);
      assert forall i :: 0 <= i < n ==> ops[..n][i] == ops[i];
    } else {
      assert Folded(s, limit, ops) == s;
    }
  }

  function Folded(s: Records, limit: nat, ops: seq<Op>): Records {
    if ops == [] then s else After(Folded(s, limit, ops[..|ops| - 1]), limit, ops[|ops| - 1])
  }

  // ---- What the handlers do ---------------------------------------------------------------------------

  /** The gateway's settings. */
  datatype Settings = Settings(limit: nat, idle: int, absolute: int)

  predicate Sane(c: Settings) {
    0 < c.idle <= c.absolute
  }

  /** A store call and its result; `None` is an exception, before or after the effect. */
  datatype Called = Called(records: Records, result: Option<Result>)

  function CallOf(s: Records, limit: nat, op: Op, fault: Fault): Called {
    if fault == FailsBefore then Called(s, None)
    else
      Called(After(s, limit, op),
             if fault == FailsAfter || Returned(s, limit, op) == Refused then None else Some(Returned(s, limit, op)))
  }

  /** What a handler leaves behind and answers. */
  datatype Handled = Handled(records: Records, response: Response)

  /** `create_record`. */
  function Creation(s: Records, limit: nat, kind: Kind, payload: string, lifetime: int, world: World, i: nat): Called {
    var now := world.clock(i);
    CallOf(s, limit, Op.Put(Record(world.token, kind, payload, now, now, now + lifetime, false), now), world.faults(i))
  }

  /** A session of the cookie, unless it is revoked or idle; the outer `None` is an exception. */
  function RowOf(s: Records, idle: int, cookie: string, includeInactive: bool, world: World, i: nat): Option<Option<Record>> {
    if world.faults(i) != Works then None
    else if cookie in s && s[cookie].kind == Session && s[cookie].expiresAt > world.clock(i)
            && (includeInactive || !(s[cookie].revoked || s[cookie].lastSeen + idle <= world.clock(i + 1)))
    then Some(Some(s[cookie]))
    else Some(None)
  }

  function ContextOf(s: Records, idle: int, req: Request, world: World): Option<Option<Record>> {
    var row := RowOf(s, idle, req.session, true, world, 0);
    if row != Some(None) then row
    else if world.faults(1) != Works then None
    else if req.context in s && s[req.context].kind == Bootstrap && s[req.context].expiresAt > world.clock(1)
    then Some(Some(s[req.context]))
    else Some(None)
  }

  /** A payload stands here for the CSRF token inside it. */
  predicate CsrfMatches(req: Request, row: Option<Record>) {
    req.sameOrigin && row.Some? && req.csrf == row.value.payload
  }

  function FinishedLogin(s: Records, c: Settings, req: Request, world: World): Handled {
    var made := Creation(s, c.limit, Session, world.csrf, c.absolute, world, 4);
    if made.result.None? then Handled(made.records, Plain(503))
    else
      var ended := CallOf(made.records, c.limit, Op.Revoke(req.session), world.faults(5));
      if ended.result.None?
      then Handled(CallOf(ended.records, c.limit, Op.Revoke(world.token), world.faults(6)).records, Plain(503))
      else Handled(ended.records, Response(303, Set(world.token, c.absolute), Clear, Clear))
  }

  function StatusAnswer(s: Records, c: Settings, req: Request, world: World): Handled {
    if !req.plain then Handled(s, Plain(422))
    else
      var row := RowOf(s, c.idle, req.session, false, world, 0);
      if row.None? then Handled(s, Plain(503))
      else if row.value.Some? then Handled(s, Plain(200))
      else if world.faults(2) != Works then Handled(s, Plain(503))
      else if req.context in s && s[req.context].kind == Bootstrap && s[req.context].expiresAt > world.clock(2)
      then Handled(s, Response(200, Clear, Keep, Keep))
      else
        var made := Creation(s, c.limit, Bootstrap, world.csrf, SHORT, world, 3);
        Handled(made.records, if made.result.None? then Plain(503) else Response(200, Clear, Set(world.token, SHORT), Keep))
  }

  function LoginAnswer(s: Records, c: Settings, req: Request, world: World): Handled {
    if req.provider != 0 then Handled(s, Plain(503))
    else
      var made := Creation(s, c.limit, Login, req.state, SHORT, world, 3);
      if made.result.None? then Handled(made.records, Plain(503))
      else if req.login == "" then Handled(made.records, Response(302, Keep, Keep, Set(world.token, SHORT)))
      else
        var used := CallOf(made.records, c.limit, Op.Consume(req.login, Login, world.clock(4)), world.faults(4));
        Handled(used.records, if used.result.None? then Plain(503) else Response(302, Keep, Keep, Set(world.token, SHORT)))
  }

  function CallbackAnswer(s: Records, c: Settings, req: Request, world: World): Handled {
    var used := CallOf(s, c.limit, Op.Consume(req.login, Login, world.clock(0)), world.faults(0));
    if used.result.None? then Handled(used.records, Plain(503))
    else if used.result.value.row.None? || req.state != used.result.value.row.value.payload then Handled(used.records, Plain(400))
    else if req.provider != 0 then Handled(used.records, Plain(if req.provider == 503 then 503 else 400))
    else FinishedLogin(used.records, c, req, world)
  }

  function DevLoginAnswer(s: Records, c: Settings, req: Request, world: World): Handled {
    var row := ContextOf(s, c.idle, req, world);
    if row.None? then Handled(s, Plain(503))
    else if !CsrfMatches(req, row.value) then Handled(s, Plain(403))
    else if !req.plain then Handled(s, Plain(422))
    else if req.bodyStatus != 0 then Handled(s, Plain(req.bodyStatus))
    else if row.value.value.kind != Bootstrap then FinishedLogin(s, c, req, world)
    else
      var used := CallOf(s, c.limit, Op.Consume(req.context, Bootstrap, world.clock(2)), world.faults(2));
      if used.result.None? then Handled(used.records, Plain(503))
      else if used.result.value.row.None? then Handled(used.records, Plain(403))
      else FinishedLogin(used.records, c, req, world)
  }

  function LogoutAnswer(s: Records, c: Settings, req: Request, world: World): Handled {
    if !req.plain then Handled(s, Plain(422))
    else
      var row := ContextOf(s, c.idle, req, world);
      if row.None? then Handled(s, Plain(503))
      else if !CsrfMatches(req, row.value) then Handled(s, Plain(403))
      else
        var ended := CallOf(s, c.limit, Op.Revoke(req.session), world.faults(2));
        if ended.result.None? then Handled(ended.records, Plain(503))
        else
          var used := CallOf(ended.records, c.limit, Op.Consume(req.login, Login, world.clock(3)), world.faults(3));
          Handled(used.records, if used.result.None? then Plain(503) else Response(204, Clear, Keep, Clear))
  }

  function AuthorizeAnswer(s: Records, c: Settings, req: Request, world: World): Handled {
    if !req.fromProxy then Handled(s, Plain(403))
    else
      var row := RowOf(s, c.idle, req.session, false, world, 0);
      if row.None? then Handled(s, Plain(503))
      else if row.value.None? then Handled(s, Plain(401))
      else if !req.methodKnown then Handled(s, Plain(400))
      else if req.unsafe && !CsrfMatches(req, row.value) then Handled(s, Plain(403))
      else
        var used := CallOf(s, c.limit, Op.Admit(req.session, world.clock(2), c.idle), world.faults(2));
        Handled(used.records, if used.result.None? then Plain(503) else Plain(if used.result.value.row.Some? then 204 else 401))
  }

  /** The whole gateway: records and answer, as a function of records, request and world. */
  function Answer(s: Records, c: Settings, req: Request, world: World): Handled {
    match req.endpoint
    case OnStatus => StatusAnswer(s, c, req, world)
    case OnLogin => LoginAnswer(s, c, req, world)
    case OnCallback => CallbackAnswer(s, c, req, world)
    case OnDevLogin => DevLoginAnswer(s, c, req, world)
    case OnLogout => LogoutAnswer(s, c, req, world)
    case OnAuthorize => AuthorizeAnswer(s, c, req, world)
  }

  /** What an answer says about the browser's old session token: if the cookie is cleared or
      replaced, that token is dead; a new one is the token just created. */
  predicate SettledIn(s: Records, c: Settings, r: Response, cookie: string, world: World) {
    match r.session
    case Keep => true
    case Clear => Dead(s, cookie, c.idle, world.clock(LAST))
    case Set(t, seconds) =>
      && t == world.token && seconds == c.absolute && Dead(s, cookie, c.idle, world.clock(LAST))
      && (t in s ==> s[t].kind == Session && s[t].expiresAt <= world.clock(LAST) + c.absolute)
  }

  // ---- What every answer keeps ---------------------------------------------------------------------------

  /** A request can be handled: the clock does not run backwards, the token is new. */
  ghost predicate Fresh(s: Records, c: Settings, req: Request, world: World) {
    Sane(c) && Ticks(world.clock) && world.token !in s && req.session != world.token
  }

  lemma CallDescends(s: Records, before: Records, c: Settings, op: Op, fault: Fault, world: World)
    requires Descends(s, before, world.token, c.idle, world.clock(0))
    requires world.clock(0) <= TimeOf(op, world.clock(0)) && (op.Put? ==> op.record.hash == world.token) && (op.Admit? ==> op.idle == c.idle)
    ensures Descends(CallOf(s, c.limit, op, fault).records, before, world.token, c.idle, world.clock(0))
  {
    hide After, Descends;
    StepDescends(s, c.limit, op, world.token, c.idle, world.clock(0));
    if fault != FailsBefore {
      DescendsOn(before, s, After(s, c.limit, op), world.token, c.idle, world.clock(0));
    }
  }

  lemma DescendsItself(s: Records, added: string, idle: int, now: int)
    ensures Descends(s, s, added, idle, now)
  {
  }

  lemma FinishDescends(s: Records, before: Records, c: Settings, req: Request, world: World)
    requires Descends(s, before, world.token, c.idle, world.clock(0)) && Ticks(world.clock)
    ensures Descends(FinishedLogin(s, c, req, world).records, before, world.token, c.idle, world.clock(0))
  {
    hide CallOf, Descends;
    var now := world.clock(4);
    var put := Op.Put(Record(world.token, Session, world.csrf, now, now, now + c.absolute, false), now);
    var made := CallOf(s, c.limit, put, world.faults(4)).records;
    CallDescends(s, before, c, put, world.faults(4), world);
    CallDescends(made, before, c, Op.Revoke(req.session), world.faults(5), world);
    CallDescends(CallOf(made, c.limit, Op.Revoke(req.session), world.faults(5)).records, before, c, Op.Revoke(world.token), world.faults(6), world);
  }

  /** Whatever fails, the records of others only age: none appears, none comes back to life. */
  lemma AnswerDescends(s: Records, c: Settings, req: Request, world: World)
    requires Fresh(s, c, req, world)
    ensures Descends(Answer(s, c, req, world).records, s, world.token, c.idle, world.clock(0))
  {
    hide CallOf, Descends, FinishedLogin, RowOf, ContextOf, CsrfMatches;
    var now := world.clock(3);
    DescendsItself(s, world.token, c.idle, world.clock(0));
    match req.endpoint
    case OnStatus =>
      CallDescends(s, s, c, Op.Put(Record(world.token, Bootstrap, world.csrf, now, now, now + SHORT, false), now), world.faults(3), world);
    case OnLogin =>
      var put := Op.Put(Record(world.token, Login, req.state, now, now, now + SHORT, false), now);
      CallDescends(s, s, c, put, world.faults(3), world);
      CallDescends(CallOf(s, c.limit, put, world.faults(3)).records, s, c, Op.Consume(req.login, Login, world.clock(4)), world.faults(4), world);
    case OnCallback =>
      var used := Op.Consume(req.login, Login, world.clock(0));
      CallDescends(s, s, c, used, world.faults(0), world);
      FinishDescends(CallOf(s, c.limit, used, world.faults(0)).records, s, c, req, world);
    case OnDevLogin =>
      var used := Op.Consume(req.context, Bootstrap, world.clock(2));
      CallDescends(s, s, c, used, world.faults(2), world);
      FinishDescends(CallOf(s, c.limit, used, world.faults(2)).records, s, c, req, world);
      FinishDescends(s, s, c, req, world);
    case OnLogout =>
      CallDescends(s, s, c, Op.Revoke(req.session), world.faults(2), world);
      CallDescends(CallOf(s, c.limit, Op.Revoke(req.session), world.faults(2)).records, s, c,
                   Op.Consume(req.login, Login, world.clock(3)), world.faults(3), world);
    case OnAuthorize =>
      CallDescends(s, s, c, Op.Admit(req.session, world.clock(2), c.idle), world.faults(2), world);
  }

  lemma FinishSettles(s: Records, c: Settings, req: Request, world: World)
    requires Sane(c) && Ticks(world.clock) && req.session != world.token
    ensures var h := FinishedLogin(s, c, req, world);
            && SettledIn(h.records, c, h.response, req.session, world)
            && (h.response.status == 303 <==> h.response.session.Set?)
            && (h.response.status == 303 ==> world.token in h.records && !h.records[world.token].revoked)
            && (h.response.status != 303 ==> h.response == Plain(503))
  {
  }

  lemma NoRowIsDead(s: Records, idle: int, cookie: string, world: World, i: nat)
    requires Ticks(world.clock) && i + 1 <= LAST && RowOf(s, idle, cookie, false, world, i) == Some(None)
    ensures Dead(s, cookie, idle, world.clock(LAST))
  {
  }

  /** A changed session cookie means that the old session is dead, at every endpoint. */
  lemma AnswerSettles(s: Records, c: Settings, req: Request, world: World)
    requires Fresh(s, c, req, world)
    ensures var h := Answer(s, c, req, world);
            SettledIn(h.records, c, h.response, req.session, world)
  {
    hide FinishedLogin, RowOf, ContextOf;
    match req.endpoint
    case OnStatus =>
      if RowOf(s, c.idle, req.session, false, world, 0) == Some(None) {
        NoRowIsDead(s, c.idle, req.session, world, 0);
      }
    case OnLogin =>
    case OnCallback =>
      FinishSettles(CallOf(s, c.limit, Op.Consume(req.login, Login, world.clock(0)), world.faults(0)).records, c, req, world);
    case OnDevLogin =>
      FinishSettles(CallOf(s, c.limit, Op.Consume(req.context, Bootstrap, world.clock(2)), world.faults(2)).records, c, req, world);
      FinishSettles(s, c, req, world);
    case OnLogout =>
    case OnAuthorize =>
  }

  // ---- The handlers, in place -----------------------------------------------------------------------------

  class Gate {
    const limit: nat
    const idle: int
    const absolute: int
    var records: Records
    ghost var issued: set<string>

    ghost predicate Valid()
      reads this
    {
      0 < idle <= absolute && records.Keys <= issued && "" !in issued
    }

    constructor (limit: nat, idle: int, absolute: int)
      requires 0 < idle <= absolute
      ensures Valid() && records == map[] && issued == {}
      ensures this.limit == limit && this.idle == idle && this.absolute == absolute
    {
      this.limit, this.idle, this.absolute := limit, idle, absolute;
      records, issued := map[], {};
    }

    function Config(): Settings {
      Settings(limit, idle, absolute)
    }

    /** A request may be handled: the clock does not run backwards, the token is new. */
    ghost predicate Ready(world: World)
      reads this
    {
      Valid() && Ticks(world.clock) && world.token in issued && world.token !in records
    }

    /** What every handler does to the records of others, whatever fails. */
    twostate predicate Kept(world: World)
      reads this
    {
      Valid() && issued == old(issued) && Descends(records, old(records), world.token, idle, world.clock(0))
    }

    /** One store call: `None` is an exception, before or after the effect. */
    method Store(op: Op, fault: Fault) returns (result: Option<Result>)
      modifies this`records
      ensures records == if fault == FailsBefore then old(records) else After(old(records), limit, op)
      ensures result == if fault == Works && Returned(old(records), limit, op) != Refused
                        then Some(Returned(old(records), limit, op)) else None
      ensures Called(records, result) == CallOf(old(records), limit, op, fault)
    {
      if fault == FailsBefore {
        return None;
      }
      var returned := Returned(records, limit, op);
      records := After(records, limit, op);
      result := if fault == FailsAfter || returned == Refused then None else Some(returned);
    }

    /** A store call other than the creation of a record. */
    method Call(op: Op, fault: Fault, world: World) returns (result: Option<Result>)
      requires Valid() && !op.Put? && world.clock(0) <= TimeOf(op, world.clock(0)) && (op.Admit? ==> op.idle == idle)
      modifies this`records
      ensures Kept(world)
      ensures records == if fault == FailsBefore then old(records) else After(old(records), limit, op)
      ensures result.Some? ==> fault == Works && result.value == Returned(old(records), limit, op)
      ensures Called(records, result) == CallOf(old(records), limit, op, fault)
    {
      StepDescends(records, limit, op, world.token, idle, world.clock(0));
      result := Store(op, fault);
    }

    /** `create_record`: false is an exception. */
    method CreateRecord(kind: Kind, payload: string, lifetime: int, world: World, i: nat) returns (ok: bool)
      requires Ready(world)
      modifies this`records
      ensures Kept(world)
      ensures records == Creation(old(records), limit, kind, payload, lifetime, world, i).records
      ensures ok <==> Creation(old(records), limit, kind, payload, lifetime, world, i).result.Some?
      ensures ok ==> records == Cleaned(old(records), world.clock(i))[world.token :=
                Record(world.token, kind, payload, world.clock(i), world.clock(i), world.clock(i) + lifetime, false)]
      ensures world.token in records ==> records[world.token].kind == kind && records[world.token].expiresAt == world.clock(i) + lifetime
      ensures forall h :: h in records && h != world.token ==> h in old(records) && records[h] == old(records)[h]
    {
      var now := world.clock(i);
      var op := Op.Put(Record(world.token, kind, payload, now, now, now + lifetime, false), now);
      StepDescends(records, limit, op, world.token, idle, world.clock(0));
      var result := Store(op, world.faults(i));
      ok := result.Some?;
    }

    predicate Settled(r: Response, cookie: string, world: World)
      reads this
    {
      SettledIn(records, Config(), r, cookie, world)
    }

    /** `session`: the record of the session cookie, unless it is revoked or idle. */
    method SessionRow(cookie: string, includeInactive: bool, world: World, i: nat)
      returns (ok: bool, row: Option<Record>)
      requires Valid() && Ticks(world.clock)
      ensures ok && row.Some? ==> cookie in records && row.value == records[cookie] && row.value.kind == Session
      ensures ok && row.Some? && !includeInactive ==> !row.value.revoked && row.value.lastSeen + idle > world.clock(i + 1)
      ensures ok && row.None? && !includeInactive ==> Dead(records, cookie, idle, world.clock(i + 1))
      ensures ok <==> world.faults(i) == Works
      ensures RowOf(records, idle, cookie, includeInactive, world, i) == if ok then Some(row) else None
    {
      if world.faults(i) != Works {
        return false, None;
      }
      ok := true;
      row := if cookie in records && records[cookie].kind == Session && records[cookie].expiresAt > world.clock(i)
             then Some(records[cookie]) else None;
      if row.Some? && !includeInactive && (row.value.revoked || row.value.lastSeen + idle <= world.clock(i + 1)) {
        row := None;
      }
    }

    /** `csrf_context`: the session, whatever its state, or else the bootstrap record. */
    method CsrfContext(req: Request, world: World) returns (ok: bool, row: Option<Record>)
      requires Valid() && Ticks(world.clock)
      ensures ContextOf(records, idle, req, world) == if ok then Some(row) else None
      ensures ok && row.Some? ==> row.value.kind == Session || row.value.kind == Bootstrap
      ensures ok && row.Some? && row.value.kind == Session ==> req.session in records && row.value == records[req.session]
      ensures ok && row.Some? && row.value.kind == Bootstrap ==> req.context in records && row.value == records[req.context]
    {
      ok, row := SessionRow(req.session, true, world, 0);
      if ok && row.None? {
        if world.faults(1) != Works {
          return false, None;
        }
        if req.context in records && records[req.context].kind == Bootstrap && records[req.context].expiresAt > world.clock(1) {
          row := Some(records[req.context]);
        }
      }
    }

    /** `validate_csrf`. */
    predicate CsrfHolds(req: Request, row: Option<Record>) {
      CsrfMatches(req, row)
    }

    /** `finish_login`: the new session first, then the end of the old one; if that fails the
        new one is revoked and not handed out. */
    method FinishLogin(req: Request, world: World) returns (r: Response)
      requires Ready(world) && req.session != world.token
      modifies this`records
      ensures Handled(records, r) == FinishedLogin(old(records), Config(), req, world)
      ensures Kept(world) && Settled(r, req.session, world)
      ensures r.status == 303 <==> r.session.Set?
      ensures r.status == 303 ==> world.token in records && !records[world.token].revoked
      ensures r.status != 303 ==> r == Plain(503)
    {
      var stored := CreateRecord(Session, world.csrf, absolute, world, 4);
      if !stored {
        return Plain(503);
      }
      ghost var created := records;
      var revoked := Call(Op.Revoke(req.session), world.faults(5), world);
      DescendsOn(old(records), created, records, world.token, idle, world.clock(0));
      if revoked.None? {
        ghost var failed := records;
        var undone := Call(Op.Revoke(world.token), world.faults(6), world);
        DescendsOn(old(records), failed, records, world.token, idle, world.clock(0));
        return Plain(503);
      }
      r := Response(303, Set(world.token, absolute), Clear, Clear);
    }

    method HandleStatus(req: Request, world: World) returns (r: Response)
      requires Ready(world) && req.session != world.token
      modifies this`records
      ensures Handled(records, r) == StatusAnswer(old(records), Config(), req, world)
      ensures Kept(world) && Settled(r, req.session, world) && !r.session.Set?
      ensures forall h :: h in records && h != world.token ==> records[h] == old(records)[h]
    {
      if !req.plain {
        return Plain(422);
      }
      var ok, row := SessionRow(req.session, false, world, 0);
      if !ok {
        return Plain(503);
      }
      if row.Some? {
        return Plain(200);
      }
      DeadLater(records, req.session, idle, world.clock(1), world.clock(LAST));
      if world.faults(2) != Works {
        return Plain(503);
      }
      if req.context in records && records[req.context].kind == Bootstrap && records[req.context].expiresAt > world.clock(2) {
        return Response(200, Clear, Keep, Keep);
      }
      var stored := CreateRecord(Bootstrap, world.csrf, SHORT, world, 3);
      if !stored {
        return Plain(503);
      }
      r := Response(200, Clear, Set(world.token, SHORT), Keep);
    }

    /** Starting a login: the transaction is durable before the previous one is consumed. */
    method HandleLogin(req: Request, world: World) returns (r: Response)
      requires Ready(world)
      modifies this`records
      ensures Handled(records, r) == LoginAnswer(old(records), Config(), req, world)
      ensures Kept(world) && r.session == Keep
      ensures r.login.Set? ==> r.login.token == world.token
      ensures r.login.Set? && req.login !in {"", world.token} ==> !CanConsume(records, req.login, Login, world.clock(4))
    {
      if req.provider != 0 {
        return Plain(503);
      }
      var stored := CreateRecord(Login, req.state, SHORT, world, 3);
      if !stored {
        return Plain(503);
      }
      if req.login != "" {
        ghost var created := records;
        var consumed := Call(Op.Consume(req.login, Login, world.clock(4)), world.faults(4), world);
        DescendsOn(old(records), created, records, world.token, idle, world.clock(0));
        if consumed.None? {
          return Plain(503);
        }
      }
      r := Response(302, Keep, Keep, Set(world.token, SHORT));
    }

    /** The identity provider's answer: the login record is consumed before anything is checked. */
    method HandleCallback(req: Request, world: World) returns (r: Response)
      requires Ready(world) && req.session != world.token
      modifies this`records
      ensures Handled(records, r) == CallbackAnswer(old(records), Config(), req, world)
      ensures Kept(world) && Settled(r, req.session, world)
      ensures r.session.Set? ==> CanConsume(old(records), req.login, Login, world.clock(0)) && req.state == old(records)[req.login].payload
    {
      var consumed := Call(Op.Consume(req.login, Login, world.clock(0)), world.faults(0), world);
      if consumed.None? {
        return Plain(503);
      }
      if consumed.value.row.None? {
        return Plain(400);
      }
      if req.state != consumed.value.row.value.payload {
        return Plain(400);
      }
      if req.provider != 0 {
        return Plain(if req.provider == 503 then 503 else 400);
      }
      ghost var before := records;
      r := FinishLogin(req, world);
      DescendsOn(old(records), before, records, world.token, idle, world.clock(0));
    }

    /** A development login: a bootstrap record authorizes one login only. */
    method HandleDevLogin(req: Request, world: World) returns (r: Response)
      requires Ready(world) && req.session != world.token
      modifies this`records
      ensures Handled(records, r) == DevLoginAnswer(old(records), Config(), req, world)
      ensures Kept(world) && Settled(r, req.session, world)
      ensures r.session.Set? ==>
                && req.sameOrigin
                && (|| (req.session in old(records) && req.csrf == old(records)[req.session].payload)
                    || (CanConsume(old(records), req.context, Bootstrap, world.clock(2)) && req.csrf == old(records)[req.context].payload))
    {
      var ok, row := CsrfContext(req, world);
      if !ok {
        return Plain(503);
      }
      if !CsrfHolds(req, row) {
        return Plain(403);
      }
      if !req.plain {
        return Plain(422);
      }
      if req.bodyStatus != 0 {
        return Plain(req.bodyStatus);
      }
      ghost var before := records;
      if row.value.kind == Bootstrap {
        var consumed := Call(Op.Consume(req.context, Bootstrap, world.clock(2)), world.faults(2), world);
        if consumed.None? {
          return Plain(503);
        }
        if consumed.value.row.None? {
          return Plain(403);
        }
        before := records;
      }
      r := FinishLogin(req, world);
      DescendsOn(old(records), before, records, world.token, idle, world.clock(0));
    }

    method HandleLogout(req: Request, world: World) returns (r: Response)
      requires Ready(world)
      modifies this`records
      ensures Handled(records, r) == LogoutAnswer(old(records), Config(), req, world)
      ensures Kept(world) && Settled(r, req.session, world) && !r.session.Set?
      ensures r.status == 204 <==> r.session == Clear
      ensures r.status == 204 ==>
                && req.plain && req.sameOrigin
                && (if req.session in old(records) && old(records)[req.session].kind == Session && world.clock(0) < old(records)[req.session].expiresAt
                    then req.csrf == old(records)[req.session].payload
                    else && req.context in old(records) && old(records)[req.context].kind == Bootstrap
                         && world.clock(1) < old(records)[req.context].expiresAt && req.csrf == old(records)[req.context].payload)
      ensures r.status in {403, 422} ==> records == old(records)
    {
      if !req.plain {
        return Plain(422);
      }
      var ok, row := CsrfContext(req, world);
      if !ok {
        return Plain(503);
      }
      if !CsrfHolds(req, row) {
        return Plain(403);
      }
      var revoked := Call(Op.Revoke(req.session), world.faults(2), world);
      if revoked.None? {
        return Plain(503);
      }
      ghost var before := records;
      var consumed := Call(Op.Consume(req.login, Login, world.clock(3)), world.faults(3), world);
      DescendsOn(old(records), before, records, world.token, idle, world.clock(0));
      if consumed.None? {
        return Plain(503);
      }
      assert req.session in records ==> req.session in before && records[req.session] == before[req.session];
      r := Response(204, Clear, Keep, Clear);
    }

    /** Admission: the session is used only when every check has passed. */
    method HandleAuthorize(req: Request, world: World) returns (r: Response)
      requires Ready(world)
      modifies this`records
      ensures Handled(records, r) == AuthorizeAnswer(old(records), Config(), req, world)
      ensures Kept(world) && r.session == Keep
      ensures r.status == 204 ==>
                && CanAdmit(old(records), req.session, world.clock(2), idle)
                && records == After(old(records), limit, Op.Admit(req.session, world.clock(2), idle))
                && (req.unsafe ==> req.sameOrigin && req.csrf == old(records)[req.session].payload)
      ensures r.status in {400, 401, 403} ==> records == old(records)
    {
      if !req.fromProxy {
        return Plain(403);
      }
      var ok, row := SessionRow(req.session, false, world, 0);
      if !ok {
        return Plain(503);
      }
      if row.None? {
        return Plain(401);
      }
      if !req.methodKnown {
        return Plain(400);
      }
      if req.unsafe && !CsrfHolds(req, row) {
        return Plain(403);
      }
      var admitted := Call(Op.Admit(req.session, world.clock(2), idle), world.faults(2), world);
      if admitted.None? {
        return Plain(503);
      }
      r := Plain(if admitted.value.row.Some? then 204 else 401);
    }

    method Handle(req: Request, world: World) returns (r: Response)
      requires Ready(world) && req.session != world.token
      modifies this`records
      ensures Handled(records, r) == Answer(old(records), Config(), req, world)
      ensures Kept(world) && Settled(r, req.session, world)
    {
      match req.endpoint
      case OnStatus => r := HandleStatus(req, world);
      case OnLogin => r := HandleLogin(req, world);
      case OnCallback => r := HandleCallback(req, world);
      case OnDevLogin => r := HandleDevLogin(req, world);
      case OnLogout => r := HandleLogout(req, world);
      case OnAuthorize => r := HandleAuthorize(req, world);
    }
  }

  // ---- One browser ---------------------------------------------------------------------------------

  /** A cookie until it expires. */
  datatype Held = Held(token: string, until: int)

  datatype Jar = Jar(session: Option<Held>, context: Option<Held>, login: Option<Held>)

  const EMPTY := Jar(None, None, None)

  function Sent(c: Option<Held>, now: int): string {
    if c.Some? && now < c.value.until then c.value.token else ""
  }

  function Applied(c: Option<Held>, change: Change, now: int): Option<Held> {
    match change
    case Keep => c
    case Clear => None
    case Set(token, seconds) => Some(Held(token, now + seconds))
  }

  function WithCookies(req: Request, jar: Jar, now: int): Request {
    req.(session := Sent(jar.session, now), context := Sent(jar.context, now), login := Sent(jar.login, now))
  }

  function Received(jar: Jar, r: Response, now: int): Jar {
    Jar(Applied(jar.session, r.session, now), Applied(jar.context, r.context, now), Applied(jar.login, r.login, now))
  }

  /** Every session token ever delivered, except the one in the cookie, is dead; the cookie
      lasts at least as long as its record. */
  ghost predicate Account(records: Records, idle: int, jar: Jar, delivered: set<string>, now: int) {
    && (forall h :: h in delivered && (jar.session.None? || jar.session.value.token != h) ==> Dead(records, h, idle, now))
    && (jar.session.Some? ==>
          && jar.session.value.token in delivered
          && (jar.session.value.token in records ==> records[jar.session.value.token].expiresAt <= jar.session.value.until))
  }

  /** One delivered response keeps the account. */
  lemma ResponseAccounted(before: Records, after: Records, idle: int, absolute: int, jar: Jar, delivered: set<string>,
                          now: int, world: World, r: Response)
    requires Account(before, idle, jar, delivered, now) && now <= world.clock(0) && Ticks(world.clock)
    requires world.token !in delivered && world.token != "" && "" !in after && Descends(after, before, world.token, idle, world.clock(0))
    requires var sent := Sent(jar.session, world.clock(0));
             match r.session
             case Keep => true
             case Clear => Dead(after, sent, idle, world.clock(LAST))
             case Set(t, seconds) =>
               && t == world.token && seconds == absolute && Dead(after, sent, idle, world.clock(LAST))
               && (t in after ==> after[t].kind == Session && after[t].expiresAt <= world.clock(LAST) + absolute)
    ensures Account(after, idle, Received(jar, r, world.clock(LAST)), if r.session.Set? then delivered + {world.token} else delivered,
                    world.clock(LAST))
  {
    var later := world.clock(LAST);
    var next := Received(jar, r, later);
    forall h | h in delivered && (next.session.None? || next.session.value.token != h) ensures Dead(after, h, idle, later) {
      if jar.session.Some? && jar.session.value.token == h {
        if world.clock(0) >= jar.session.value.until {
          ExpiredIsDead(before, after, h, world, idle, jar.session.value.until);
        }
      } else {
        DeadLater(before, h, idle, now, world.clock(0));
        DeadLater(after, h, idle, world.clock(0), later);
      }
    }
  }

  lemma ExpiredIsDead(before: Records, after: Records, h: string, world: World, idle: int, until: int)
    requires Ticks(world.clock) && h != world.token && Descends(after, before, world.token, idle, world.clock(0))
    requires h in before ==> before[h].expiresAt <= until
    requires until <= world.clock(0)
    ensures Dead(after, h, idle, world.clock(LAST))
  {
    DeadLater(before, h, idle, world.clock(0), world.clock(0));
    DeadLater(after, h, idle, world.clock(0), world.clock(LAST));
  }

  /** What happens to the store and the browser: a visit of this browser, or any operation on
      behalf of somebody else. */
  datatype Event = Visit(req: Request, world: World) | Foreign(op: Op)

  function Created(e: Event): Option<string> {
    match e
    case Visit(_, world) => Some(world.token)
    case Foreign(op) => if op.Put? then Some(op.record.hash) else None
  }

  function End(e: Event, now: int): int {
    match e
    case Visit(_, world) => world.clock(LAST)
    case Foreign(op) => TimeOf(op, now)
  }

  function EndOf(events: seq<Event>, n: nat, start: int): int
    requires n <= |events|
  {
    if n == 0 then start else End(events[n - 1], EndOf(events, n - 1, start))
  }

  function Drawn(events: seq<Event>, n: nat): set<string>
    requires n <= |events|
  {
    if n == 0 then {}
    else Drawn(events, n - 1) + (if Created(events[n - 1]).Some? then {Created(events[n - 1]).value} else {})
  }

  /** One event after another, on one clock, with tokens that are never drawn twice. */
  ghost predicate Possible(events: seq<Event>, start: int, issued: set<string>, idle: int) {
    forall i :: 0 <= i < |events| ==> PossibleNext(events[i], EndOf(events, i, start), issued + Drawn(events, i), idle)
  }

  ghost predicate PossibleNext(e: Event, now: int, issued: set<string>, idle: int) {
    && (Created(e).Some? ==> Created(e).value !in issued && Created(e).value != "")
    && match e
       case Visit(_, world) => Ticks(world.clock) && now <= world.clock(0)
       case Foreign(op) => now <= TimeOf(op, now) && (op.Admit? ==> op.idle == idle)
  }

  // ---- Runs -----------------------------------------------------------------------------------------

  /** The store, the browser's cookies, and all responses it has received so far. */
  datatype Browsing = Browsing(records: Records, jar: Jar, responses: seq<Response>)

  /** The request of a visit carries the cookies of the moment; its response is the gateway's
      answer to it in the state of the moment, and is delivered. */
  function NextBrowsing(b: Browsing, c: Settings, e: Event): Browsing {
    match e
    case Visit(req, world) =>
      var h := Answer(b.records, c, WithCookies(req, b.jar, world.clock(0)), world);
      Browsing(h.records, Received(b.jar, h.response, world.clock(LAST)), b.responses + [h.response])
    case Foreign(op) => b.(records := After(b.records, c.limit, op))
  }

  function Browsed(s: Records, c: Settings, events: seq<Event>, n: nat): Browsing
    requires n <= |events|
  {
    if n == 0 then Browsing(s, EMPTY, []) else NextBrowsing(Browsed(s, c, events, n - 1), c, events[n - 1])
  }

  /** The session tokens that responses have delivered. */
  function Delivered(responses: seq<Response>): set<string> {
    set r | r in responses && r.session.Set? :: r.session.token
  }

  lemma DeliveredOneMore(responses: seq<Response>, r: Response)
    ensures Delivered(responses + [r]) == Delivered(responses) + (if r.session.Set? then {r.session.token} else {})
  {
    forall x ensures x in responses + [r] <==> x in responses || x == r {
      assert (responses + [r])[|responses|] == r;
    }
  }

  lemma NothingDelivered()
    ensures Delivered([]) == {}
  {
  }

  /** Tokens in the store and delivered tokens have all been drawn. */
  ghost predicate AllDrawn(b: Browsing, known: set<string>) {
    b.records.Keys <= known && Delivered(b.responses) <= known && "" !in known
  }

  lemma VisitKeepsAccount(b: Browsing, c: Settings, req: Request, world: World, now: int, known: set<string>)
    requires Sane(c) && AllDrawn(b, known) && Account(b.records, c.idle, b.jar, Delivered(b.responses), now)
    requires Ticks(world.clock) && now <= world.clock(0) && world.token !in known && world.token != ""
    ensures var n := NextBrowsing(b, c, Visit(req, world));
            && AllDrawn(n, known + {world.token})
            && Account(n.records, c.idle, n.jar, Delivered(n.responses), world.clock(LAST))
  {
    hide Answer, Account, Delivered;
    var sent := WithCookies(req, b.jar, world.clock(0));
    CookieIsKnown(b, c, known, now);
    var h := Answer(b.records, c, sent, world);
    AnswerDescends(b.records, c, sent, world);
    AnswerSettles(b.records, c, sent, world);
    DeliveredOneMore(b.responses, h.response);
    assert Delivered(b.responses + [h.response])
        == if h.response.session.Set? then Delivered(b.responses) + {world.token} else Delivered(b.responses);
    ResponseAccounted(b.records, h.records, c.idle, c.absolute, b.jar, Delivered(b.responses), now, world, h.response);
  }

  lemma CookieIsKnown(b: Browsing, c: Settings, known: set<string>, now: int)
    requires AllDrawn(b, known) && Account(b.records, c.idle, b.jar, Delivered(b.responses), now)
    ensures b.jar.session.Some? ==> b.jar.session.value.token in known
  {
  }

  lemma AfterKeys(s: Records, limit: nat, op: Op)
    ensures After(s, limit, op).Keys <= s.Keys + (if op.Put? then {op.record.hash} else {})
  {
  }

  lemma ForeignKeepsAccount(b: Browsing, c: Settings, op: Op, now: int, known: set<string>)
    requires Sane(c) && AllDrawn(b, known) && Account(b.records, c.idle, b.jar, Delivered(b.responses), now)
    requires now <= TimeOf(op, now) && (op.Admit? ==> op.idle == c.idle) && (op.Put? ==> op.record.hash !in known + {""})
    ensures var n := NextBrowsing(b, c, Foreign(op));
            && AllDrawn(n, known + (if op.Put? then {op.record.hash} else {}))
            && Account(n.records, c.idle, n.jar, Delivered(n.responses), TimeOf(op, now))
  {
    hide Delivered, After;
    AfterKeys(b.records, c.limit, op);
    var added := if op.Put? then op.record.hash else "";
    StepDescends(b.records, c.limit, op, added, c.idle, now);
    var n := NextBrowsing(b, c, Foreign(op));
    forall h | h in Delivered(b.responses) && (b.jar.session.None? || b.jar.session.value.token != h)
      ensures Dead(n.records, h, c.idle, TimeOf(op, now))
    {
      DeadLater(n.records, h, c.idle, now, TimeOf(op, now));
    }
  }

  /** Any sequence of requests of one browser, with delivered responses, among anything others
      do: at every point, each session token that any response so far has delivered is dead,
      except the one in the cookie.  Failing store calls, also in the middle of a login, make no
      difference. */
  lemma {:induction false} EverySessionAccounted(s: Records, c: Settings, events: seq<Event>, start: int, issued: set<string>, n: nat)
    requires Sane(c) && s.Keys <= issued && "" !in issued && Possible(events, start, issued, c.idle) && n <= |events|
    ensures var b := Browsed(s, c, events, n);
            && AllDrawn(b, issued + Drawn(events, n))
            && Account(b.records, c.idle, b.jar, Delivered(b.responses), EndOf(events, n, start))
  {
    hide Account, NextBrowsing, Delivered, EndOf, Drawn, AllDrawn, Ticks;
    if n == 0 {
      NothingDelivered();
      NothingYet(s, c.idle, events, start);
      StartsDrawn(s, issued);
      assert issued + Drawn(events, 0) == issued;
    } else {
      EverySessionAccounted(s, c, events, start, issued, n - 1);
      OneMore(events, n - 1, start);
      var known := issued + Drawn(events, n - 1);
      EventKeepsAccount(Browsed(s, c, events, n - 1), c, events[n - 1], EndOf(events, n - 1, start), known);
      assert issued + Drawn(events, n) == known + (if Created(events[n - 1]).Some? then {Created(events[n - 1]).value} else {});
    }
  }

  lemma StartsDrawn(s: Records, issued: set<string>)
    requires s.Keys <= issued && "" !in issued
    ensures AllDrawn(Browsing(s, EMPTY, []), issued)
  {
    NothingDelivered();
  }

  lemma EventKeepsAccount(b: Browsing, c: Settings, e: Event, now: int, known: set<string>)
    requires Sane(c) && AllDrawn(b, known) && Account(b.records, c.idle, b.jar, Delivered(b.responses), now)
    requires PossibleNext(e, now, known, c.idle)
    ensures var n := NextBrowsing(b, c, e);
            && AllDrawn(n, known + (if Created(e).Some? then {Created(e).value} else {}))
            && Account(n.records, c.idle, n.jar, Delivered(n.responses), End(e, now))
  {
    hide Account, NextBrowsing, Delivered, AllDrawn;
    match e
    case Visit(req, world) => VisitKeepsAccount(b, c, req, world, now, known);
    case Foreign(op) =>
      EmptyNotDrawn(b, known);
      ForeignKeepsAccount(b, c, op, now, known);
  }

  lemma EmptyNotDrawn(b: Browsing, known: set<string>)
    requires AllDrawn(b, known)
    ensures "" !in known
  {
  }

  ghost predicate InCookie(b: Browsing, h: string) {
    b.jar.session.Some? && b.jar.session.value.token == h
  }

  /** A token that has left the cookie never returns to it and stays dead: no later request of
      anybody is admitted with it. */
  lemma {:induction false} DroppedForGood(s: Records, c: Settings, events: seq<Event>, start: int, issued: set<string>,
                                          m: nat, n: nat, h: string)
    requires Sane(c) && s.Keys <= issued && "" !in issued && Possible(events, start, issued, c.idle) && m <= n <= |events|
    requires h in Delivered(Browsed(s, c, events, m).responses) && !InCookie(Browsed(s, c, events, m), h)
    ensures var b := Browsed(s, c, events, n);
            && h in Delivered(b.responses) && !InCookie(b, h) && Dead(b.records, h, c.idle, EndOf(events, n, start))
            && (n < |events| && events[n].Foreign? && events[n].op.Admit? && events[n].op.hash == h ==>
                  !CanAdmit(b.records, h, events[n].op.now, c.idle))
    decreases n - m
  {
    hide NextBrowsing, Delivered, Account, EndOf, Drawn, AllDrawn, Ticks, InCookie, Dead;
    EverySessionAccounted(s, c, events, start, issued, n);
    if m < n {
      DroppedForGood(s, c, events, start, issued, m, n - 1, h);
      EverySessionAccounted(s, c, events, start, issued, n - 1);
      DrawnAnew(Browsed(s, c, events, n - 1), events[n - 1], EndOf(events, n - 1, start), issued + Drawn(events, n - 1), c.idle, h);
      NotGivenAgain(Browsed(s, c, events, n - 1), c, events[n - 1], h);
    }
    DroppedIsDead(Browsed(s, c, events, n), c, h, EndOf(events, n, start));
    if n < |events| && events[n].Foreign? && events[n].op.Admit? && events[n].op.hash == h {
      assert PossibleNext(events[n], EndOf(events, n, start), issued + Drawn(events, n), c.idle);
      DeadIsRefused(Browsed(s, c, events, n).records, h, c.idle, EndOf(events, n, start), events[n].op.now);
    }
  }

  lemma DrawnAnew(b: Browsing, e: Event, now: int, known: set<string>, idle: int, h: string)
    requires AllDrawn(b, known) && PossibleNext(e, now, known, idle) && h in Delivered(b.responses)
    ensures Created(e).Some? ==> Created(e).value != h
  {
    hide Delivered;
  }

  lemma DroppedIsDead(b: Browsing, c: Settings, h: string, now: int)
    requires Account(b.records, c.idle, b.jar, Delivered(b.responses), now) && h in Delivered(b.responses) && !InCookie(b, h)
    ensures Dead(b.records, h, c.idle, now)
  {
  }

  lemma DeadIsRefused(s: Records, h: string, idle: int, now: int, later: int)
    requires Dead(s, h, idle, now) && now <= later
    ensures !CanAdmit(s, h, later, idle)
  {
  }

  lemma NotGivenAgain(b: Browsing, c: Settings, e: Event, h: string)
    requires h in Delivered(b.responses) && !InCookie(b, h) && (Created(e).Some? ==> Created(e).value != h)
    ensures h in Delivered(NextBrowsing(b, c, e).responses) && !InCookie(NextBrowsing(b, c, e), h)
  {
    match e
    case Visit(req, world) =>
      var r := Answer(b.records, c, WithCookies(req, b.jar, world.clock(0)), world).response;
      OnlyNewTokens(b.records, c, WithCookies(req, b.jar, world.clock(0)), world);
      DeliveredOneMore(b.responses, r);
    case Foreign(op) =>
  }

  /** A response sets no session token but the one just drawn. */
  lemma OnlyNewTokens(s: Records, c: Settings, req: Request, world: World)
    ensures var r := Answer(s, c, req, world).response;
            r.session.Set? ==> r.session.token == world.token
  {
    hide CallOf, RowOf, ContextOf, CsrfMatches;
  }

  lemma NothingYet(records: Records, idle: int, events: seq<Event>, start: int)
    ensures Account(records, idle, EMPTY, {}, EndOf(events, 0, start)) && Drawn(events, 0) == {}
  {
  }

  lemma OneMore(events: seq<Event>, i: nat, start: int)
    requires i < |events|
    ensures EndOf(events, i + 1, start) == End(events[i], EndOf(events, i, start))
    ensures Drawn(events, i + 1) == Drawn(events, i) + (if Created(events[i]).Some? then {Created(events[i]).value} else {})
  {
  }

  /** The same in place: the gate handles one request after another, the jar takes each response
      in, and what comes out is the run the theorems are about. */
  method Browse(g: Gate, events: seq<Event>, start: int) returns (b: Browsing)
    requires g.Valid() && Possible(events, start, g.issued, g.idle)
    modifies g
    ensures g.Valid() && b == Browsed(old(g.records), g.Config(), events, |events|) && g.records == b.records
    ensures Account(b.records, g.idle, b.jar, Delivered(b.responses), EndOf(events, |events|, start))
  {
    hide Account, EndOf, Drawn, Answer, Delivered;
    ghost var s, issued := g.records, g.issued;
    b := Browsing(g.records, EMPTY, []);
    var i := 0;
    assert Drawn(events, 0) == {} by {
      NothingYet(s, g.idle, events, start);
    }
    while i < |events|
      invariant i <= |events| && g.Valid() && g.issued == issued + Drawn(events, i)
      invariant b == Browsed(s, g.Config(), events, i) && g.records == b.records
    {
      assert PossibleNext(events[i], EndOf(events, i, start), g.issued, g.idle);
      EverySessionAccounted(s, g.Config(), events, start, issued, i);
      OneMore(events, i, start);
      match events[i] {
        case Visit(req, world) =>
          CookieIsKnown(b, g.Config(), g.issued, EndOf(events, i, start));
          b := VisitOnce(g, req, world, b);
        case Foreign(op) =>
          b := ForeignOnce(g, op, b);
      }
      i := i + 1;
    }
    EverySessionAccounted(s, g.Config(), events, start, issued, |events|);
  }

  method VisitOnce(g: Gate, req: Request, world: World, b: Browsing) returns (next: Browsing)
    requires g.Valid() && g.records == b.records && Ticks(world.clock) && world.token !in g.issued && world.token != ""
    requires b.jar.session.Some? ==> b.jar.session.value.token in g.issued
    modifies g
    ensures g.Valid() && g.issued == old(g.issued) + {world.token}
    ensures next == NextBrowsing(b, g.Config(), Visit(req, world)) && g.records == next.records
  {
    g.issued := g.issued + {world.token};
    var r := g.Handle(WithCookies(req, b.jar, world.clock(0)), world);
    next := Browsing(g.records, Received(b.jar, r, world.clock(LAST)), b.responses + [r]);
  }

  method ForeignOnce(g: Gate, op: Op, b: Browsing) returns (next: Browsing)
    requires g.Valid() && g.records == b.records && (op.Put? ==> op.record.hash !in g.issued + {""})
    modifies g
    ensures g.Valid() && g.issued == old(g.issued) + (if op.Put? then {op.record.hash} else {})
    ensures next == NextBrowsing(b, g.Config(), Foreign(op)) && g.records == next.records
  {
    g.issued := g.issued + (if op.Put? then {op.record.hash} else {});
    var result := g.Store(op, Works);
    next := b.(records := g.records);
  }
}
