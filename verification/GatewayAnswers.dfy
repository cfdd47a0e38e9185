/** Which request gets which answer at the gateway: each status by the conditions that decide it,
    and what each answer has done to the records. */
module GatewayAnswers {
  import opened Text
  import opened Sessions
  import opened Gateway

  // ---- The conditions ------------------------------------------------------------------------------------

  predicate Up(world: World, i: nat) {
    world.faults(i) == Fault.Works
  }

  /** An unexpired record of this kind. */
  predicate Live(s: Records, hash: string, kind: Kind, now: int) {
    hash in s && s[hash].kind == kind && now < s[hash].expiresAt
  }

  /** A live session that is neither revoked nor, a moment later, idle for too long. */
  predicate Active(s: Records, hash: string, now: int, later: int, idle: int) {
    Live(s, hash, Session, now) && !s[hash].revoked && later < s[hash].lastSeen + idle
  }

  predicate Usable(s: Records, hash: string, kind: Kind, now: int) {
    Live(s, hash, kind, now) && !s[hash].revoked
  }

  /** The store can be asked for the session and, if there is none, for the bootstrap record. */
  predicate Readable(s: Records, req: Request, world: World) {
    Up(world, 0) && (Live(s, req.session, Session, world.clock(0)) || Up(world, 1))
  }

  /** The request comes from the gateway's own origin with the CSRF token of the live session of its
      cookie or, where there is none, of the live bootstrap record. */
  predicate Genuine(s: Records, req: Request, world: World) {
    && req.sameOrigin
    && if Live(s, req.session, Session, world.clock(0)) then req.csrf == s[req.session].payload
       else Live(s, req.context, Bootstrap, world.clock(1)) && req.csrf == s[req.context].payload
  }

  /** There is room for one more unexpired record, and the token is not among them. */
  predicate Room(s: Records, limit: nat, token: string, now: int) {
    |set h | h in s && now < s[h].expiresAt| < limit && !(token in s && now < s[token].expiresAt)
  }

  /** `after` is `before` without expired records and with the new one. */
  ghost predicate Stored(after: Records, before: Records, r: Record, now: int) {
    && r.hash in after && after[r.hash] == r
    && (forall h :: h != r.hash ==> (h in after <==> h in before && now < before[h].expiresAt) && (h in after ==> after[h] == before[h]))
  }

  /** One record is gone, the others are as they were. */
  ghost predicate Without(after: Records, before: Records, hash: string) {
    hash !in after && forall h :: h != hash ==> (h in after <==> h in before) && (h in before ==> after[h] == before[h])
  }

  /** A session is revoked, if it is one; everything else is as it was. */
  ghost predicate Ended(after: Records, before: Records, hash: string) {
    forall h :: (h in after <==> h in before)
             && (h in before ==> after[h] == if h == hash && before[h].kind == Session then before[h].(revoked := true) else before[h])
  }

  lemma RoomMeans(s: Records, limit: nat, token: string, now: int)
    ensures Room(s, limit, token, now) <==> |Cleaned(s, now)| < limit && token !in Cleaned(s, now)
  {
    assert Cleaned(s, now).Keys == set h | h in s && now < s[h].expiresAt;
  }

  /** A creation either works, with room and a working store, or is an exception. */
  lemma CreationMeans(s: Records, limit: nat, kind: Kind, payload: string, lifetime: int, world: World, i: nat)
    ensures var made := Creation(s, limit, kind, payload, lifetime, world, i);
            var now := world.clock(i);
            && (made.result.Some? <==> Up(world, i) && Room(s, limit, world.token, now))
            && (made.result.Some? ==> Stored(made.records, s, Record(world.token, kind, payload, now, now, now + lifetime, false), now))
  {
    RoomMeans(s, limit, world.token, world.clock(i));
  }

  lemma ConsumptionMeans(s: Records, limit: nat, hash: string, kind: Kind, now: int, fault: Fault)
    ensures var used := CallOf(s, limit, Op.Consume(hash, kind, now), fault);
            && (used.result.Some? <==> fault == Fault.Works)
            && (used.result.Some? ==> used.result.value == Row(if Usable(s, hash, kind, now) then Some(s[hash]) else None))
            && (used.result.Some? && Usable(s, hash, kind, now) ==> Without(used.records, s, hash))
            && (!Usable(s, hash, kind, now) ==> used.records == s)
  {
  }

  lemma EndingMeans(s: Records, limit: nat, hash: string, fault: Fault)
    ensures var ended := CallOf(s, limit, Op.Revoke(hash), fault);
            && (ended.result.Some? <==> fault == Fault.Works)
            && (ended.result.Some? ==> Ended(ended.records, s, hash))
  {
  }

  // ---- Logout ----------------------------------------------------------------------------------------------

  /** The session is ended, and a usable login record is used up. */
  ghost predicate LoggedOut(h: Handled, s: Records, t: Records, req: Request, world: World) {
    Ended(t, s, req.session) && if Usable(t, req.login, Login, world.clock(3)) then Without(h.records, t, req.login) else h.records == t
  }

  /** A logout is done exactly for a genuine request without query parameters over a working
      store; it ends the session and uses up the login record, and takes both cookies away. */
  lemma LogoutMeans(s: Records, c: Settings, req: Request, world: World)
    requires req.endpoint == OnLogout
    ensures var h := Answer(s, c, req, world);
            && (h.response.status == 422 <==> !req.plain)
            && (h.response.status == 403 <==> req.plain && Readable(s, req, world) && !Genuine(s, req, world))
            && (h.response.status == 204 <==> req.plain && Readable(s, req, world) && Genuine(s, req, world) && Up(world, 2) && Up(world, 3))
            && (h.response.status in {204, 403, 422, 503})
            && h.response == (if h.response.status == 204 then Response(204, Clear, Keep, Clear) else Plain(h.response.status))
    ensures var h := Answer(s, c, req, world);
            && (h.response.status in {403, 422} || !Readable(s, req, world) ==> h.records == s)
            && (h.response.status == 204 ==> exists t :: LoggedOut(h, s, t, req, world))
  {
    hide CallOf, Ended, Without;
    var t := CallOf(s, c.limit, Op.Revoke(req.session), world.faults(2)).records;
    EndingMeans(s, c.limit, req.session, world.faults(2));
    ConsumptionMeans(t, c.limit, req.login, Login, world.clock(3), world.faults(3));
    if Answer(s, c, req, world).response.status == 204 {
      assert LoggedOut(Answer(s, c, req, world), s, t, req, world);
    }
  }

  // ---- Logging in ------------------------------------------------------------------------------------------

  /** The end of a login: a new session with its lifetime, the old one ended. */
  ghost predicate LoggedIn(h: Handled, s: Records, c: Settings, req: Request, world: World) {
    h.response == Response(303, Set(world.token, c.absolute), Clear, Clear) && exists t :: SessionBegun(h, s, t, c, req, world)
  }

  ghost predicate SessionBegun(h: Handled, s: Records, t: Records, c: Settings, req: Request, world: World) {
    var now := world.clock(4);
    && Stored(t, s, Record(world.token, Session, world.csrf, now, now, now + c.absolute, false), now)
    && Ended(h.records, t, req.session)
  }

  lemma FinishMeans(s: Records, c: Settings, req: Request, world: World)
    ensures var h := FinishedLogin(s, c, req, world);
            if Up(world, 4) && Room(s, c.limit, world.token, world.clock(4)) && Up(world, 5) then LoggedIn(h, s, c, req, world)
            else h.response == Plain(503)
  {
    hide CallOf, Ended, Stored, Creation, Room;
    CreationMeans(s, c.limit, Session, world.csrf, c.absolute, world, 4);
    var made := Creation(s, c.limit, Session, world.csrf, c.absolute, world, 4);
    EndingMeans(made.records, c.limit, req.session, world.faults(5));
    if Up(world, 4) && Room(s, c.limit, world.token, world.clock(4)) && Up(world, 5) {
      assert SessionBegun(FinishedLogin(s, c, req, world), s, made.records, c, req, world);
    }
  }

  /** The state is stored for five minutes, and a usable login record is used up. */
  ghost predicate LoginStarted(h: Handled, s: Records, t: Records, req: Request, world: World) {
    var now := world.clock(3);
    && Stored(t, s, Record(world.token, Login, req.state, now, now, now + 300, false), now)
    && if req.login != "" && Usable(t, req.login, Login, world.clock(4)) then Without(h.records, t, req.login) else h.records == t
  }

  /** A started login stores its state for five minutes and then uses up the one before it. */
  lemma LoginMeans(s: Records, c: Settings, req: Request, world: World)
    requires req.endpoint == OnLogin
    ensures var h := Answer(s, c, req, world);
            if req.provider == 0 && Up(world, 3) && Room(s, c.limit, world.token, world.clock(3)) && (req.login == "" || Up(world, 4)) then
              h.response == Response(302, Keep, Keep, Set(world.token, 300)) && exists t :: LoginStarted(h, s, t, req, world)
            else h.response == Plain(503)
    ensures req.provider != 0 ==> Answer(s, c, req, world).records == s
  {
    hide CallOf, Stored, Creation, Room, Without;
    CreationMeans(s, c.limit, Login, req.state, SHORT, world, 3);
    var made := Creation(s, c.limit, Login, req.state, SHORT, world, 3);
    ConsumptionMeans(made.records, c.limit, req.login, Login, world.clock(4), world.faults(4));
    if req.provider == 0 && Up(world, 3) && Room(s, c.limit, world.token, world.clock(3)) && (req.login == "" || Up(world, 4)) {
      assert LoginStarted(Answer(s, c, req, world), s, made.records, req, world);
    }
  }

  /** A callback logs in exactly with a usable login record of the same state and the provider's
      consent; the record is used up whatever comes of it. */
  lemma CallbackMeans(s: Records, c: Settings, req: Request, world: World)
    requires req.endpoint == OnCallback
    ensures var h := Answer(s, c, req, world);
            var usable := Usable(s, req.login, Login, world.clock(0));
            && (Up(world, 0) && usable ==> exists t :: Without(t, s, req.login) && CallbackWith(h, s, t, c, req, world))
            && (Up(world, 0) && !usable ==> h == Handled(s, Plain(400)))
            && (!Up(world, 0) ==> h.response == Plain(503))
  {
    hide CallOf, Without, FinishedLogin, CallbackWith;
    ConsumptionMeans(s, c.limit, req.login, Login, world.clock(0), world.faults(0));
    var t := CallOf(s, c.limit, Op.Consume(req.login, Login, world.clock(0)), world.faults(0)).records;
    if Up(world, 0) && Usable(s, req.login, Login, world.clock(0)) {
      CallbackFrom(s, t, c, req, world);
    }
  }

  /** What becomes of a callback whose login record has been used up. */
  ghost predicate CallbackWith(h: Handled, s: Records, t: Records, c: Settings, req: Request, world: World) {
    req.login in s &&
    if req.state != s[req.login].payload then h == Handled(t, Plain(400))
    else if req.provider == 503 then h == Handled(t, Plain(503))
    else if req.provider != 0 then h == Handled(t, Plain(400))
    else if Up(world, 4) && Room(t, c.limit, world.token, world.clock(4)) && Up(world, 5) then LoggedIn(h, t, c, req, world)
    else h.response == Plain(503)
  }

  lemma CallbackFrom(s: Records, t: Records, c: Settings, req: Request, world: World)
    requires req.endpoint == OnCallback && Up(world, 0) && Usable(s, req.login, Login, world.clock(0))
    requires t == CallOf(s, c.limit, Op.Consume(req.login, Login, world.clock(0)), world.faults(0)).records
    ensures CallbackWith(Answer(s, c, req, world), s, t, c, req, world)
  {
    hide CallOf, FinishedLogin, LoggedIn, Room;
    ConsumptionMeans(s, c.limit, req.login, Login, world.clock(0), world.faults(0));
    FinishMeans(t, c, req, world);
  }

  /** A development login: what is checked, in order, and with what status it is refused. */
  lemma DevLoginMeans(s: Records, c: Settings, req: Request, world: World)
    requires req.endpoint == OnDevLogin
    ensures var h := Answer(s, c, req, world);
            if !Readable(s, req, world) then h == Handled(s, Plain(503))
            else if !Genuine(s, req, world) then h == Handled(s, Plain(403))
            else if !req.plain then h == Handled(s, Plain(422))
            else if req.bodyStatus != 0 then h == Handled(s, Plain(req.bodyStatus))
            else if Live(s, req.session, Session, world.clock(0)) then DevLoggedIn(h, s, c, req, world)
            else if !Up(world, 2) then h.response == Plain(503)
            else if !Usable(s, req.context, Bootstrap, world.clock(2)) then h == Handled(s, Plain(403))
            else exists t :: Without(t, s, req.context) && DevLoggedIn(h, t, c, req, world)
  {
    hide CallOf, Without, FinishedLogin, LoggedIn, Room;
    ConsumptionMeans(s, c.limit, req.context, Bootstrap, world.clock(2), world.faults(2));
    FinishMeans(s, c, req, world);
    FinishMeans(CallOf(s, c.limit, Op.Consume(req.context, Bootstrap, world.clock(2)), world.faults(2)).records, c, req, world);
  }

  ghost predicate DevLoggedIn(h: Handled, t: Records, c: Settings, req: Request, world: World) {
    if Up(world, 4) && Room(t, c.limit, world.token, world.clock(4)) && Up(world, 5) then LoggedIn(h, t, c, req, world)
    else h.response == Plain(503)
  }

  // ---- Status and authorization ---------------------------------------------------------------------------

  /** A status request: an active session is left alone; without one the session cookie goes, and a
      bootstrap record that is not there yet is made. */
  lemma StatusMeans(s: Records, c: Settings, req: Request, world: World)
    requires req.endpoint == OnStatus
    ensures var h := Answer(s, c, req, world);
            if !req.plain then h == Handled(s, Plain(422))
            else if !Up(world, 0) then h == Handled(s, Plain(503))
            else if Active(s, req.session, world.clock(0), world.clock(1), c.idle) then h == Handled(s, Plain(200))
            else if !Up(world, 2) then h == Handled(s, Plain(503))
            else if Live(s, req.context, Bootstrap, world.clock(2)) then h == Handled(s, Response(200, Clear, Keep, Keep))
            else if Up(world, 3) && Room(s, c.limit, world.token, world.clock(3)) then
              && h.response == Response(200, Clear, Set(world.token, 300), Keep)
              && Stored(h.records, s, Record(world.token, Bootstrap, world.csrf, world.clock(3), world.clock(3), world.clock(3) + 300, false), world.clock(3))
            else h.response == Plain(503)
  {
    hide CallOf, Creation, Stored, Room;
    CreationMeans(s, c.limit, Bootstrap, world.csrf, SHORT, world, 3);
  }

  /** A request is let through exactly if it comes through the proxy, with a known method, on an
      active session, and, if it may change something, is genuine for that session; the session is
      then seen as used at that moment, and no record changes otherwise. */
  lemma AuthorizeMeans(s: Records, c: Settings, req: Request, world: World)
    requires req.endpoint == OnAuthorize
    ensures var h := Answer(s, c, req, world);
            var r := h.response;
            && r == Plain(r.status) && r.status in {204, 400, 401, 403, 503}
            && (r.status == 204 <==>
                  && req.fromProxy && Up(world, 0) && Active(s, req.session, world.clock(0), world.clock(1), c.idle) && req.methodKnown
                  && (req.unsafe ==> req.sameOrigin && req.csrf == s[req.session].payload)
                  && Up(world, 2) && Active(s, req.session, world.clock(2), world.clock(2), c.idle))
            && (r.status == 403 <==>
                  || !req.fromProxy
                  || (&& Up(world, 0) && Active(s, req.session, world.clock(0), world.clock(1), c.idle) && req.methodKnown
                      && req.unsafe && !(req.sameOrigin && req.csrf == s[req.session].payload)))
            && (r.status == 400 <==>
                  req.fromProxy && Up(world, 0) && Active(s, req.session, world.clock(0), world.clock(1), c.idle) && !req.methodKnown)
            && (r.status in {400, 401, 403} ==> h.records == s)
            && (r.status == 204 ==>
                  && req.session in s
                  && var seen := s[req.session].lastSeen;
                     h.records == s[req.session := s[req.session].(lastSeen := if seen < world.clock(2) then world.clock(2) else seen)])
  {
  }
}
