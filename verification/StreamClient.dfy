/** The browser's side of the answer stream: what each event means, the order they must come
    in, and how a stream can end. */
module StreamClient {
  import opened Text
  import opened JsonText
  import opened EventStream

  // ---- What an event says ------------------------------------------------------------------

  /** The parts of a stream that matter: an answer's text, accepted metadata, an announced
      failure, an announced end, an unusable payload, or an event of another kind. */
  datatype Signal =
    | Answer(delta: string) | Meta(meta: Json) | Failure(code: string) | Done(reason: Option<string>)
    | Bad | Ignored

  function Member(v: Json, field: string): Json {
    if v.JObject? && field in v.fields then v.fields[field] else JNull
  }

  predicate AssetOk(v: Json) {
    Member(v, "asset_id").JString? && Member(v, "media_type").JString?
  }

  /** `toSourceReference`: assets are absent, or a list of assets with their two texts. */
  predicate SourceOk(v: Json) {
    && !v.JNull?
    && var assets := Member(v, "assets");
    assets.JNull? || (assets.JArray? && forall i :: 0 <= i < |assets.items| ==> AssetOk(assets.items[i]))
  }

  predicate MetaOk(v: Json) {
    && Member(v, "session_id").JString? && Member(v, "grounded").JBool?
    && var sources := Member(v, "sources");
    sources.JArray? && forall i :: 0 <= i < |sources.items| ==> SourceOk(sources.items[i])
  }

  const KNOWN := {"answer", "meta", "error", "done"}

  /** What a block says, given the reader's JSON parser. */
  function SignalOf(json: string -> Option<Json>, block: string): Signal {
    match ParseEvent(block)
    case None => Ignored
    case Some(e) =>
      if e.name !in KNOWN then Ignored
      else
        match json(e.data)
        case None => Bad
        case Some(v) =>
          if e.name == "answer" then (if Member(v, "delta").JString? then Answer(Member(v, "delta").s) else Bad)
          else if e.name == "meta" then (if MetaOk(v) then Meta(v) else Bad)
          else if e.name == "error" then
            if v.JNull? then Bad
            else Failure(if Member(v, "code").JString? then Member(v, "code").s else "stream_interrupted")
          else Done(if Member(v, "reason").JString? then Some(Member(v, "reason").s) else None)
  }

  /** An object whose member is this text. */
  ghost predicate TextIn(v: Json, field: string, text: string) {
    v.JObject? && field in v.fields && v.fields[field] == JString(text)
  }

  /** A member that is missing or null. */
  ghost predicate Lacks(v: Json, field: string) {
    !v.JObject? || field !in v.fields || v.fields[field] == JNull
  }

  /** A source is anything but null; its assets, if there are any, are a list of such with an id and
      a media type. */
  ghost predicate UsableSource(v: Json) {
    && v != JNull
    && (Lacks(v, "assets") ||
        (v.fields["assets"].JArray?
         && forall a :: a in v.fields["assets"].items ==> (exists s :: TextIn(a, "asset_id", s)) && exists s :: TextIn(a, "media_type", s)))
  }

  /** Metadata name a session, say whether the answer is grounded, and list its sources. */
  ghost predicate UsableMeta(v: Json) {
    && (exists s :: TextIn(v, "session_id", s))
    && (exists b :: "grounded" in v.fields && v.fields["grounded"] == JBool(b))
    && "sources" in v.fields && v.fields["sources"].JArray?
    && forall s :: s in v.fields["sources"].items ==> UsableSource(s)
  }

  lemma MemberMeans(v: Json, field: string)
    ensures forall s :: Member(v, field) == JString(s) <==> TextIn(v, field, s)
    ensures Member(v, field) == JNull <==> Lacks(v, field)
    ensures Member(v, field).JString? <==> exists s :: TextIn(v, field, s)
  {
    if Member(v, field).JString? {
      assert TextIn(v, field, Member(v, field).s);
    }
  }

  lemma AssetMeans(v: Json)
    ensures AssetOk(v) <==> (exists s :: TextIn(v, "asset_id", s)) && exists s :: TextIn(v, "media_type", s)
  {
    MemberMeans(v, "asset_id");
    MemberMeans(v, "media_type");
  }

  lemma SourceMeans(v: Json)
    ensures SourceOk(v) <==> UsableSource(v)
  {
    MemberMeans(v, "assets");
    if !Lacks(v, "assets") && v.fields["assets"].JArray? {
      var items := v.fields["assets"].items;
      forall i | 0 <= i < |items|
        ensures items[i] in items && (AssetOk(items[i]) <==> (exists s :: TextIn(items[i], "asset_id", s)) && exists s :: TextIn(items[i], "media_type", s))
      {
        AssetMeans(items[i]);
      }
    }
  }

  lemma MetaMeans(v: Json)
    ensures MetaOk(v) <==> UsableMeta(v)
  {
    MemberMeans(v, "session_id");
    forall s ensures SourceOk(s) <==> UsableSource(s) {
      SourceMeans(s);
    }
    if MetaOk(v) {
      var items := v.fields["sources"].items;
      assert v.fields["grounded"] == JBool(v.fields["grounded"].b);
      forall s | s in items ensures UsableSource(s) {
        var i :| 0 <= i < |items| && items[i] == s;
      }
      assert UsableMeta(v);
    }
    if UsableMeta(v) {
      var items := v.fields["sources"].items;
      forall i | 0 <= i < |items| ensures SourceOk(items[i]) {
        assert items[i] in items;
      }
      assert MetaOk(v);
    }
  }

  /** A block is an event of this kind, and its data parse to this value. */
  ghost predicate Carries(json: string -> Option<Json>, block: string, name: string, v: Json) {
    exists e :: ParseEvent(block) == Some(e) && e.name == name && json(e.data) == Some(v)
  }

  /** The event of one of the four kinds, and its value; or neither. */
  ghost predicate Unreadable(json: string -> Option<Json>, block: string) {
    exists e :: ParseEvent(block) == Some(e) && e.name in KNOWN && json(e.data).None?
  }

  /** The error's own code, or the one for errors without. */
  ghost predicate CodeIs(v: Json, code: string) {
    TextIn(v, "code", code) || (code == "stream_interrupted" && !exists s :: TextIn(v, "code", s))
  }

  /** What each block says: which answers carry a text, which metadata are usable, what an error is
      called, which reason an end has, and that everything else of these kinds is unusable. */
  lemma WhatABlockSays(json: string -> Option<Json>, block: string)
    ensures var signal := SignalOf(json, block);
            && (forall d :: signal == Answer(d) <==> exists v :: Carries(json, block, "answer", v) && TextIn(v, "delta", d))
            && (forall m :: signal == Meta(m) <==> Carries(json, block, "meta", m) && UsableMeta(m))
            && (forall c :: signal == Failure(c) <==> exists v :: Carries(json, block, "error", v) && v != JNull && CodeIs(v, c))
            && (forall r :: signal == Done(Some(r)) <==> exists v :: Carries(json, block, "done", v) && TextIn(v, "reason", r))
            && (signal == Done(None) <==> exists v :: Carries(json, block, "done", v) && !exists s :: TextIn(v, "reason", s))
            && (signal == Bad <==> Unreadable(json, block) || exists v ::
                  || (Carries(json, block, "answer", v) && !exists s :: TextIn(v, "delta", s))
                  || (Carries(json, block, "meta", v) && !UsableMeta(v))
                  || (Carries(json, block, "error", v) && v == JNull))
            && (signal == Ignored <==> forall e :: ParseEvent(block) == Some(e) ==> e.name !in {"answer", "meta", "error", "done"})
  {
    hide ParseEvent, TextIn, UsableMeta, MetaOk, Member;
    forall v: Json ensures MetaOk(v) <==> UsableMeta(v) {
      MetaMeans(v);
    }
    forall v: Json, field ensures (forall s :: Member(v, field) == JString(s) <==> TextIn(v, field, s))
                             && (Member(v, field).JString? <==> exists s :: TextIn(v, field, s)) {
      MemberMeans(v, field);
    }
    var e := ParseEvent(block);
    if e.Some? && json(e.value.data).Some? {
      var v := json(e.value.data).value;
      assert Carries(json, block, e.value.name, v);
      assert forall name, u :: Carries(json, block, name, u) ==> name == e.value.name && u == v;
    } else {
      assert forall name, u :: !Carries(json, block, name, u);
    }
  }

  // ---- The protocol ----------------------------------------------------------------------------

  datatype Terminal = Open | MetaSeen | ErrorSeen

  /** The client between blocks.  It is stale once an announced failure has revoked its own
      authentication generation. */
  datatype State = State(deltas: seq<string>, meta: Option<Json>, terminal: Terminal, completed: bool,
                         error: Option<string>, stale: bool)

  const START := State([], None, Open, false, None, false)
  const AUTH_REQUIRED := "authentication_required"

  datatype Outcome =
    | Returned(deltas: seq<string>, meta: Option<Json>) | ServerError(code: string)
    | Rejected | Cancelled | Incomplete

  datatype Step = Next(state: State) | Thrown(outcome: Outcome)

  /** `processBlock`. */
  function Process(s: State, signal: Signal): Step {
    if s.stale then Thrown(Cancelled)
    else
      match signal
      case Ignored => Next(s)
      case Bad => Thrown(Rejected)
      case Answer(delta) => if s.terminal.Open? then Next(s.(deltas := s.deltas + [delta])) else Thrown(Rejected)
      case Meta(meta) => if s.terminal.Open? then Next(s.(terminal := MetaSeen, meta := Some(meta))) else Thrown(Rejected)
      case Failure(code) =>
        if s.terminal.Open? then Next(s.(terminal := ErrorSeen, error := Some(code), stale := code == AUTH_REQUIRED))
        else Thrown(Rejected)
      case Done(reason) =>
        if !s.completed && ((s.terminal.MetaSeen? && reason == Some("completed")) || (s.terminal.ErrorSeen? && reason == Some("error")))
        then Next(s.(completed := true)) else Thrown(Rejected)
  }

  /** Only one error makes a client drop its own authentication, and it does so for any block after it. */
  lemma WhatRevokes(s: State, code: string, later: Signal)
    requires s == START.(deltas := s.deltas)
    ensures Process(s, Failure(code)).Next?
    ensures Process(Process(s, Failure(code)).state, later) == Thrown(Cancelled) <==> code == "authentication_required"
  {
  }

  /** When the stream has ended. */
  function Ended(s: State): Outcome {
    if !s.completed then Incomplete
    else if s.error.Some? then ServerError(s.error.value)
    else Returned(s.deltas, s.meta)
  }

  function Consume(json: string -> Option<Json>, s: State, blocks: seq<string>): Outcome
    decreases |blocks|
  {
    if blocks == [] then Ended(s)
    else
      match Process(s, SignalOf(json, blocks[0]))
      case Thrown(outcome) => outcome
      case Next(t) => Consume(json, t, blocks[1..])
  }

  /** What a client makes of a whole text: its last, unfinished part is never read. */
  function OutcomeOf(json: string -> Option<Json>, text: string): Outcome {
    Consume(json, START, AllButLast(Split(text)))
  }

  /** The signals of some blocks, other events left out. */
  function Signals(json: string -> Option<Json>, blocks: seq<string>): seq<Signal>
    decreases |blocks|
  {
    if blocks == [] then []
    else (if SignalOf(json, blocks[0]).Ignored? then [] else [SignalOf(json, blocks[0])]) + Signals(json, blocks[1..])
  }

  function ConsumeSignals(s: State, signals: seq<Signal>): Outcome
    decreases |signals|
  {
    if signals == [] then Ended(s)
    else
      match Process(s, signals[0])
      case Thrown(outcome) => outcome
      case Next(t) => ConsumeSignals(t, signals[1..])
  }

  /** The signals end, all accepted, with the failure that revokes the client's own
      authentication. */
  predicate EndsRevoked(s: State, signals: seq<Signal>) {
    signals != [] && Last(signals) == Failure(AUTH_REQUIRED) && ConsumeSignals(s, signals) == Incomplete
  }

  lemma StaleIsCancelled(json: string -> Option<Json>, s: State, blocks: seq<string>)
    requires s.stale && !s.completed
    ensures Consume(json, s, blocks) == if blocks == [] then Incomplete else Cancelled
    ensures ConsumeSignals(s, Signals(json, blocks)) == if Signals(json, blocks) == [] then Incomplete else Cancelled
  {
  }

  lemma {:induction false} NoSignals(json: string -> Option<Json>, blocks: seq<string>)
    ensures Signals(json, blocks) == [] && blocks != [] ==> SignalOf(json, Last(blocks)).Ignored?
    decreases |blocks|
  {
    hide SignalOf;
    if |blocks| > 1 {
      NoSignals(json, blocks[1..]);
    }
  }

  /** The block that announces the revoking failure. */
  lemma RevokingBlock(json: string -> Option<Json>, s: State, blocks: seq<string>)
    requires !s.stale && !s.completed && s.terminal.Open? && blocks != [] && SignalOf(json, blocks[0]) == Failure(AUTH_REQUIRED)
    ensures Consume(json, s, blocks) == if |blocks| == 1 then Incomplete else Cancelled
    ensures ConsumeSignals(s, Signals(json, blocks)) == if Signals(json, blocks[1..]) == [] then Incomplete else Cancelled
    ensures EndsRevoked(s, Signals(json, blocks)) <==> Signals(json, blocks[1..]) == []
  {
    hide SignalOf;
    var signal, rest := SignalOf(json, blocks[0]), Signals(json, blocks[1..]);
    assert Signals(json, blocks) == [signal] + rest && ([signal] + rest)[1..] == rest;
    StaleIsCancelled(json, Process(s, signal).state, blocks[1..]);
    assert rest == [] ==> Last([signal] + rest) == signal;
  }

  /** Events of other kinds make no difference, with one exception: at the end of a stream that
      broke off after the revoking failure they are what makes the client notice it. */
  lemma {:induction false} OtherEventsIgnored(json: string -> Option<Json>, s: State, blocks: seq<string>)
    requires !s.stale && (s.terminal.Open? ==> !s.completed)
    ensures Consume(json, s, blocks)
         == if EndsRevoked(s, Signals(json, blocks)) && SignalOf(json, Last(blocks)).Ignored? then Cancelled
            else ConsumeSignals(s, Signals(json, blocks))
    decreases |blocks|
  {
    hide SignalOf, Process, EndsRevoked;
    NothingRevoked(s);
    if blocks != [] {
      var signal, rest := SignalOf(json, blocks[0]), Signals(json, blocks[1..]);
      assert |blocks| > 1 ==> Last(blocks) == Last(blocks[1..]);
      if signal.Ignored? {
        assert Signals(json, blocks) == rest;
        assert blocks[1..] == [] ==> rest == [];
        OtherEventsIgnored(json, s, blocks[1..]);
      } else if signal == Failure(AUTH_REQUIRED) && s.terminal.Open? {
        RevokingBlock(json, s, blocks);
        NoSignals(json, blocks[1..]);
      } else {
        assert Signals(json, blocks) == [signal] + rest && ([signal] + rest)[1..] == rest;
        OrdinaryBlock(s, signal, rest);
        if Process(s, signal).Next? {
          OtherEventsIgnored(json, Process(s, signal).state, blocks[1..]);
        }
      }
    }
  }

  lemma NothingRevoked(s: State)
    ensures !EndsRevoked(s, []) && (!s.stale ==> Process(s, Ignored) == Next(s))
  {
  }

  /** Any other block leaves it to the rest how the stream ends. */
  lemma OrdinaryBlock(s: State, signal: Signal, rest: seq<Signal>)
    requires !s.stale && (s.terminal.Open? ==> !s.completed) && !signal.Ignored? && !(signal == Failure(AUTH_REQUIRED) && s.terminal.Open?)
    ensures Process(s, signal).Next? ==>
              var t := Process(s, signal).state;
              && !t.stale && (t.terminal.Open? ==> !t.completed)
              && (EndsRevoked(s, [signal] + rest) <==> EndsRevoked(t, rest))
    ensures Process(s, signal).Thrown? ==> !EndsRevoked(s, [signal] + rest)
  {
    assert ([signal] + rest)[1..] == rest;
    assert rest != [] ==> Last([signal] + rest) == Last(rest);
  }

  // ---- The two languages ------------------------------------------------------------------------

  /** `answer* meta done(completed)`. */
  ghost predicate CompletedRun(signals: seq<Signal>, deltas: seq<string>, meta: Json) {
    && |signals| == |deltas| + 2
    && (forall i :: 0 <= i < |deltas| ==> signals[i] == Answer(deltas[i]))
    && signals[|deltas|] == Meta(meta) && signals[|deltas| + 1] == Done(Some("completed"))
  }

  /** `answer* error done(error)`. */
  ghost predicate FailedRun(signals: seq<Signal>, deltas: seq<string>, code: string) {
    && |signals| == |deltas| + 2
    && (forall i :: 0 <= i < |deltas| ==> signals[i] == Answer(deltas[i]))
    && signals[|deltas|] == Failure(code) && signals[|deltas| + 1] == Done(Some("error"))
  }

  predicate Ends(o: Outcome) {
    o.Returned? || o.ServerError?
  }

  /** After the end only the end of the stream is accepted. */
  lemma AfterDone(s: State, signals: seq<Signal>)
    requires s.completed && !s.terminal.Open? && (forall i :: 0 <= i < |signals| ==> !signals[i].Ignored?)
    ensures Ends(ConsumeSignals(s, signals)) ==> signals == []
  {
  }

  /** After metadata or an error, exactly the matching `done` and then nothing. */
  lemma AfterTerminal(s: State, signals: seq<Signal>)
    requires !s.completed && !s.terminal.Open? && !s.stale && (forall i :: 0 <= i < |signals| ==> !signals[i].Ignored?)
    ensures var end := if s.terminal.MetaSeen? then "completed" else "error";
            && (Ends(ConsumeSignals(s, signals)) <==> signals == [Done(Some(end))])
            && (signals == [Done(Some(end))] ==> ConsumeSignals(s, signals) == Ended(s.(completed := true)))
  {
    if signals != [] && Process(s, signals[0]).Next? {
      AfterDone(Process(s, signals[0]).state, signals[1..]);
      assert signals == [signals[0]] + signals[1..];
    }
  }

  lemma {:induction false} ReturnsOn(s: State, signals: seq<Signal>, deltas: seq<string>, meta: Option<Json>)
    requires s.terminal.Open? && !s.completed && !s.stale && s.error.None?
    requires forall i :: 0 <= i < |signals| ==> !signals[i].Ignored?
    ensures ConsumeSignals(s, signals) == Returned(s.deltas + deltas, meta) <==> meta.Some? && CompletedRun(signals, deltas, meta.value)
    decreases |signals|
  {
    if signals == [] {
    } else {
      var rest := signals[1..];
      assert signals == [signals[0]] + rest;
      match signals[0]
      case Answer(delta) =>
        var t := s.(deltas := s.deltas + [delta]);
        if deltas != [] {
          ReturnsOn(t, rest, deltas[1..], meta);
          assert t.deltas + deltas[1..] == s.deltas + ([delta] + deltas[1..]);
          AnswerFirst(signals, delta, deltas, meta);
          if deltas[0] != delta {
            DeltasGrow(t, rest);
            assert (s.deltas + deltas)[|s.deltas|] == deltas[0];
          } else {
            assert deltas == [delta] + deltas[1..];
          }
        } else {
          DeltasGrow(t, rest);
        }
      case Meta(m) =>
        AfterTerminal(s.(terminal := MetaSeen, meta := Some(m)), rest);
        MetaFirst(s, signals, m, deltas, meta);
      case Failure(code) =>
        FailureNeverReturns(s, signals);
      case Done(_) =>
      case Bad =>
    }
  }

  lemma AnswerFirst(signals: seq<Signal>, delta: string, deltas: seq<string>, meta: Option<Json>)
    requires signals != [] && signals[0] == Answer(delta) && deltas != []
    ensures meta.Some? ==>
              (CompletedRun(signals, deltas, meta.value) <==> delta == deltas[0] && CompletedRun(signals[1..], deltas[1..], meta.value))
  {
    if meta.Some? && delta == deltas[0] && CompletedRun(signals[1..], deltas[1..], meta.value) {
      forall i | 0 <= i < |deltas| ensures signals[i] == Answer(deltas[i]) {
        assert i > 0 ==> signals[1..][i - 1] == Answer(deltas[1..][i - 1]);
      }
    }
  }

  lemma MetaFirst(s: State, signals: seq<Signal>, m: Json, deltas: seq<string>, meta: Option<Json>)
    requires signals != [] && signals[0] == Meta(m)
    ensures meta.Some? ==>
              (CompletedRun(signals, deltas, meta.value) <==> deltas == [] && m == meta.value && signals[1..] == [Done(Some("completed"))])
  {
  }

  lemma FailureNeverReturns(s: State, signals: seq<Signal>)
    requires s.terminal.Open? && !s.completed && signals != [] && signals[0].Failure?
    requires forall i :: 0 <= i < |signals| ==> !signals[i].Ignored?
    ensures !ConsumeSignals(s, signals).Returned?
  {
    if !s.stale {
      var t := Process(s, signals[0]).state;
      if !t.stale {
        AfterTerminal(t, signals[1..]);
      }
    }
  }

  /** What has been shown is only ever added to. */
  lemma {:induction false} DeltasGrow(s: State, signals: seq<Signal>)
    ensures ConsumeSignals(s, signals).Returned? ==> s.deltas <= ConsumeSignals(s, signals).deltas
    decreases |signals|
  {
    if signals != [] && Process(s, signals[0]).Next? {
      DeltasGrow(Process(s, signals[0]).state, signals[1..]);
    }
  }

  lemma {:induction false} FailsOn(s: State, signals: seq<Signal>, deltas: seq<string>, code: string)
    requires s.terminal.Open? && !s.completed && !s.stale && s.error.None?
    requires FailedRun(signals, deltas, code)
    ensures ConsumeSignals(s, signals) == if code == AUTH_REQUIRED then Cancelled else ServerError(code)
    decreases |signals|
  {
    if deltas == [] {
      assert signals[1..] == [Done(Some("error"))];
      assert [Done(Some("error"))][1..] == [];
    } else {
      forall i | 0 <= i < |deltas| - 1 ensures signals[1..][i] == Answer(deltas[1..][i]) {
        assert signals[i + 1] == Answer(deltas[i + 1]);
      }
      FailsOn(s.(deltas := s.deltas + [deltas[0]]), signals[1..], deltas[1..], code);
    }
  }

  lemma {:induction false} FailsBack(s: State, signals: seq<Signal>) returns (deltas: seq<string>)
    requires s.terminal.Open? && !s.completed && !s.stale && s.error.None?
    requires forall i :: 0 <= i < |signals| ==> !signals[i].Ignored?
    requires ConsumeSignals(s, signals).ServerError?
    ensures FailedRun(signals, deltas, ConsumeSignals(s, signals).code) && ConsumeSignals(s, signals).code != AUTH_REQUIRED
    decreases |signals|
  {
    var rest := signals[1..];
    var t := Process(s, signals[0]).state;
    if signals[0].Answer? {
      var more := FailsBack(t, rest);
      deltas := [signals[0].delta] + more;
      forall i | 0 <= i < |deltas| ensures signals[i] == Answer(deltas[i]) {
        assert i > 0 ==> rest[i - 1] == Answer(more[i - 1]);
      }
      assert signals[|deltas|] == rest[|more|] && signals[|deltas| + 1] == rest[|more| + 1];
    } else {
      deltas := [];
      assert t.stale ==> ConsumeSignals(t, rest) == Cancelled;
      AfterTerminal(t, rest);
      assert rest == [Done(Some(if t.terminal.MetaSeen? then "completed" else "error"))];
    }
  }

  lemma {:induction false} SignalsAreKnown(json: string -> Option<Json>, blocks: seq<string>)
    ensures forall i :: 0 <= i < |Signals(json, blocks)| ==> !Signals(json, blocks)[i].Ignored?
    decreases |blocks|
  {
    hide SignalOf;
    if blocks != [] {
      SignalsAreKnown(json, blocks[1..]);
    }
  }

  lemma FailedRunReported(json: string -> Option<Json>, text: string, deltas: seq<string>, code: string)
    requires FailedRun(Signals(json, AllButLast(Split(text))), deltas, code)
    ensures OutcomeOf(json, text) == if code == AUTH_REQUIRED then Cancelled else ServerError(code)
  {
    hide SignalOf, FailedRun, Split;
    var blocks := AllButLast(Split(text));
    OtherEventsIgnored(json, START, blocks);
    FailsOn(START, Signals(json, blocks), deltas, code);
  }

  /** The client returns normally on exactly the completed runs, reports a server error on
      exactly the failed ones that do not revoke its own authentication, and otherwise
      neither. */
  lemma ClientLanguages(json: string -> Option<Json>, text: string)
    ensures var signals := Signals(json, AllButLast(Split(text)));
            && (forall deltas, meta :: OutcomeOf(json, text) == Returned(deltas, Some(meta)) <==> CompletedRun(signals, deltas, meta))
            && (forall deltas :: OutcomeOf(json, text) != Returned(deltas, None))
            && (forall code :: OutcomeOf(json, text) == ServerError(code) <==>
                  code != AUTH_REQUIRED && exists deltas :: FailedRun(signals, deltas, code))
            && (Ends(OutcomeOf(json, text)) ==>
                  || (exists deltas, meta :: CompletedRun(signals, deltas, meta))
                  || (exists deltas, code :: FailedRun(signals, deltas, code)))
  {
    hide SignalOf, CompletedRun, FailedRun, Split;
    var blocks := AllButLast(Split(text));
    var signals := Signals(json, blocks);
    OtherEventsIgnored(json, START, blocks);
    SignalsAreKnown(json, blocks);
    forall deltas, meta
      ensures OutcomeOf(json, text) == Returned(deltas, meta) <==> meta.Some? && CompletedRun(signals, deltas, meta.value)
    {
      ReturnsOn(START, signals, deltas, meta);
      assert START.deltas + deltas == deltas;
    }
    forall code, deltas | FailedRun(signals, deltas, code)
      ensures OutcomeOf(json, text) == if code == AUTH_REQUIRED then Cancelled else ServerError(code)
    {
      FailedRunReported(json, text, deltas, code);
    }
    var o := OutcomeOf(json, text);
    if o.ServerError? {
      var deltas := FailsBack(START, signals);
    } else if o.Returned? {
      assert o == Returned(o.deltas, o.meta);
    }
  }

  // ---- The read loop, in place ----------------------------------------------------------------------

  /** A finite stream of decoded chunks read by the client. */
  class StreamReader {
    const json: string -> Option<Json>
    var buffer: string
    var state: State

    constructor (json: string -> Option<Json>)
      ensures this.json == json && buffer == "" && state == START
    {
      this.json, buffer, state := json, "", START;
    }

    /** One block; `thrown` is what the call raises. */
    method ProcessBlock(block: string) returns (thrown: Option<Outcome>)
      modifies this`state
      ensures match Process(old(state), SignalOf(json, block))
              case Thrown(outcome) => thrown == Some(outcome) && state == old(state)
              case Next(t) => thrown == None && state == t
    {
      if state.stale {
        return Some(Cancelled);
      }
      var signal := SignalOf(json, block);
      match signal {
        case Ignored =>
        case Bad =>
          return Some(Rejected);
        case Answer(delta) =>
          if !state.terminal.Open? {
            return Some(Rejected);
          }
          state := state.(deltas := state.deltas + [delta]);
        case Meta(meta) =>
          if !state.terminal.Open? {
            return Some(Rejected);
          }
          state := state.(terminal := MetaSeen, meta := Some(meta));
        case Failure(code) =>
          if !state.terminal.Open? {
            return Some(Rejected);
          }
          state := state.(terminal := ErrorSeen, error := Some(code));
          if code == AUTH_REQUIRED {
            state := state.(stale := true);
          }
        case Done(reason) =>
          if state.completed {
            return Some(Rejected);
          }
          if (state.terminal.MetaSeen? && reason == Some("completed")) || (state.terminal.ErrorSeen? && reason == Some("error")) {
            state := state.(completed := true);
          } else {
            return Some(Rejected);
          }
      }
      thrown := None;
    }

    /** The inner loop over finished blocks. */
    method ProcessBlocks(blocks: seq<string>) returns (thrown: Option<Outcome>)
      modifies this`state
      ensures thrown.Some? ==> forall more :: Consume(json, old(state), blocks + more) == thrown.value
      ensures thrown.None? ==> forall more :: Consume(json, old(state), blocks + more) == Consume(json, state, more)
    {
      var i := 0;
      while i < |blocks|
        invariant i <= |blocks|
        invariant forall more :: Consume(json, old(state), blocks + more) == Consume(json, state, blocks[i..] + more)
      {
        forall more ensures (blocks[i..] + more)[0] == blocks[i] && (blocks[i..] + more)[1..] == blocks[i + 1..] + more {
        }
        thrown := ProcessBlock(blocks[i]);
        if thrown.Some? {
          return;
        }
        i := i + 1;
      }
      assert forall more :: blocks[i..] + more == more;
      thrown := None;
    }

    /** One turn of the read loop. */
    method ReadChunk(chunks: seq<string>, i: nat) returns (thrown: Option<Outcome>)
      requires i < |chunks| && Following(json, chunks, i, buffer, state)
      modifies this
      ensures thrown.None? ==> Following(json, chunks, i + 1, buffer, state)
      ensures thrown.Some? ==> OutcomeOf(json, Joined(chunks)) == thrown.value
    {
      hide Consume, Split, OutcomeOf;
      ReadOneMore(chunks, i);
      ghost var before := EventStream.Read(chunks[..i]).0;
      buffer := buffer + chunks[i];
      var parts := Split(buffer);
      buffer := Last(parts);
      thrown := ProcessBlocks(AllButLast(parts));
      forall more ensures before + AllButLast(parts) + more == before + (AllButLast(parts) + more) {
      }
      if thrown.Some? {
        FirstFault(json, chunks, i + 1, thrown.value);
      }
    }

    /** `streamChat` once the response is there: read, split, process, until the end. */
    method Stream(chunks: seq<string>) returns (outcome: Outcome)
      requires buffer == "" && state == START
      modifies this
      ensures outcome == OutcomeOf(json, Joined(chunks))
    {
      hide Following, OutcomeOf;
      NothingRead(json, chunks);
      var i := 0;
      while i < |chunks|
        invariant i <= |chunks| && Following(json, chunks, i, buffer, state)
      {
        var thrown := ReadChunk(chunks, i);
        if thrown.Some? {
          return thrown.value;
        }
        i := i + 1;
      }
      EndOfStream(json, chunks, buffer, state);
      outcome := Ended(state);
    }
  }

  lemma NothingRead(json: string -> Option<Json>, chunks: seq<string>)
    ensures Following(json, chunks, 0, "", START)
  {
    assert chunks[..0] == [];
    assert forall more: seq<string> :: [] + more == more;
  }

  lemma EndOfStream(json: string -> Option<Json>, chunks: seq<string>, buffer: string, state: State)
    requires Following(json, chunks, |chunks|, buffer, state)
    ensures OutcomeOf(json, Joined(chunks)) == Ended(state)
  {
    hide Split, Process, SignalOf;
    assert chunks[..|chunks|] == chunks;
    ReadIsSplit(chunks);
    var blocks := EventStream.Read(chunks).0;
    assert blocks + [] == blocks;
    assert Consume(json, START, blocks + []) == Consume(json, state, []);
  }

  /** The reader after some chunks: what is buffered, and a state equivalent to having consumed
      every finished block. */
  ghost predicate Following(json: string -> Option<Json>, chunks: seq<string>, n: nat, buffer: string, state: State) {
    && n <= |chunks| && EventStream.Read(chunks[..n]).1 == buffer
    && forall more :: Consume(json, START, EventStream.Read(chunks[..n]).0 + more) == Consume(json, state, more)
  }

  lemma ReadOneMore(chunks: seq<string>, i: nat)
    requires i < |chunks|
    ensures var (blocks, buffer) := EventStream.Read(chunks[..i]);
            var parts := Split(buffer + chunks[i]);
            EventStream.Read(chunks[..i + 1]) == (blocks + AllButLast(parts), Last(parts))
  {
    assert chunks[..i + 1][..i] == chunks[..i];
  }

  /** A fault in the first chunks is the fault of the whole stream. */
  lemma FirstFault(json: string -> Option<Json>, chunks: seq<string>, n: nat, fault: Outcome)
    requires n <= |chunks| && forall more :: Consume(json, START, EventStream.Read(chunks[..n]).0 + more) == fault
    ensures OutcomeOf(json, Joined(chunks)) == fault
  {
    var rest := LaterBlocks(chunks, n);
    ReadIsSplit(chunks);
    assert chunks[..|chunks|] == chunks;
  }

  lemma {:induction false} LaterBlocks(chunks: seq<string>, n: nat) returns (rest: seq<string>)
    requires n <= |chunks|
    ensures EventStream.Read(chunks).0 == EventStream.Read(chunks[..n]).0 + rest
    decreases |chunks| - n
  {
    hide Split;
    if n == |chunks| {
      assert chunks[..n] == chunks;
      rest := [];
    } else {
      var more := LaterBlocks(chunks, n + 1);
      assert chunks[..n + 1][..n] == chunks[..n];
      rest := AllButLast(Split(EventStream.Read(chunks[..n]).1 + chunks[n])) + more;
    }
  }
}
