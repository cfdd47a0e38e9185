/** The server's side of the answer stream, and both sides together: what any client sees of
    any run, however the network cuts the text. */
module AnswerStream {
  import opened Text
  import opened JsonText
  import opened JsonValue
  import opened EventStream
  import opened StreamClient

  // ---- Tokens ---------------------------------------------------------------------------------

  function RunLength(s: string, space: char -> bool, of: bool): (n: nat)
    ensures n <= |s|
    ensures s != "" && space(s[0]) == of ==> n > 0
  {
    if s == "" || space(s[0]) != of then 0 else 1 + RunLength(s[1..], space, of)
  }

  /** The next match of `\S+\s*|\s+`. */
  function TokenLength(s: string, space: char -> bool): (n: nat)
    requires s != ""
    ensures 0 < n <= |s|
  {
    if space(s[0]) then RunLength(s, space, true)
    else
      var word := RunLength(s, space, false);
      word + RunLength(s[word..], space, true)
  }

  /** `re.findall(r"\S+\s*|\s+", answer)`. */
  function Tokens(s: string, space: char -> bool): seq<string>
    decreases |s|
  {
    if s == "" then []
    else
      var n := TokenLength(s, space);
      [s[..n]] + Tokens(s[n..], space)
  }

  /** A token is a word with the spaces after it; only the first may be nothing but spaces. */
  ghost predicate WordThenSpaces(t: string, space: char -> bool, m: nat) {
    && m <= |t| && (forall i :: 0 <= i < m ==> !space(t[i])) && (forall i :: m <= i < |t| ==> space(t[i]))
  }

  lemma {:induction false} RunIs(s: string, space: char -> bool, of: bool)
    ensures var n := RunLength(s, space, of);
            (forall i :: 0 <= i < n ==> space(s[i]) == of) && (n < |s| ==> space(s[n]) != of)
    decreases |s|
  {
    if s != "" && space(s[0]) == of {
      RunIs(s[1..], space, of);
      var n := RunLength(s, space, of);
      assert forall i :: 1 <= i < n ==> s[i] == s[1..][i - 1];
    }
  }

  lemma TokenIs(s: string, space: char -> bool) returns (m: nat)
    requires s != ""
    ensures var n := TokenLength(s, space);
            && WordThenSpaces(s[..n], space, m) && (m == 0 <==> space(s[0])) && (n < |s| ==> !space(s[n]))
  {
    var n := TokenLength(s, space);
    if space(s[0]) {
      m := 0;
      RunIs(s, space, true);
    } else {
      m := RunLength(s, space, false);
      RunIs(s, space, false);
      RunIs(s[m..], space, true);
      assert forall i :: m <= i < n ==> s[i] == s[m..][i - m];
      assert n < |s| ==> s[n] == s[m..][n - m];
    }
  }

  /** Every token after the first starts with a word, and every token is as long as it can be. */
  lemma {:induction false} TokensAre(s: string, space: char -> bool, i: nat) returns (m: nat)
    requires i < |Tokens(s, space)|
    ensures var t := Tokens(s, space)[i];
            t != "" && WordThenSpaces(t, space, m) && (m == 0 <==> i == 0 && space(s[0]))
    decreases |s|
  {
    var n := TokenLength(s, space);
    m := TokenIs(s, space);
    if i > 0 {
      assert s[n..] != "" && !space(s[n..][0]);
      m := TokensAre(s[n..], space, i - 1);
    }
  }

  function Concat(parts: seq<string>): string {
    if parts == [] then "" else parts[0] + Concat(parts[1..])
  }

  /** Tokenizing preserves every character. */
  lemma {:induction false} TokensConcat(s: string, space: char -> bool)
    ensures Concat(Tokens(s, space)) == s
    decreases |s|
  {
    if s != "" {
      var n := TokenLength(s, space);
      TokensConcat(s[n..], space);
      assert s[..n] + s[n..] == s;
    }
  }

  // ---- Events ----------------------------------------------------------------------------------

  function DeltaValue(token: string): Value {
    VObject([Field("delta", VString(token))])
  }

  /** `json.dumps({'delta': token}, ensure_ascii=False)`. */
  function DeltaText(token: string): string {
    Dumps(DeltaValue(token))
  }

  /** A literal of the source, not a printed document: it has no space after the colon. */
  function DoneText(reason: string): string {
    "{\"reason\":\"" + reason + "\"}"
  }

  const ERROR_CODE := "stream_interrupted"

  function ErrorMessage(): string {
    "The answer stream was " + "interrupted. Please try again."
  }

  function ErrorValue(): Value {
    VObject([Field("code", VString(ERROR_CODE)), Field("message", VString(ErrorMessage()))])
  }

  function ErrorText(): string {
    Dumps(ErrorValue())
  }

  // ---- Metadata ------------------------------------------------------------------------------------

  datatype AssetRef = AssetRef(
    assetId: string, mediaType: string, width: Option<string>, height: Option<string>,
    altText: Option<string>, caption: Option<string>, contentUrl: Option<string>)

  /** A source as the response names it; numbers are given by their text. */
  datatype Source = Source(
    docId: string, chunkId: string, sourcePath: string, title: Option<string>, page: Option<string>,
    section: Option<string>, score: string, snippet: string, assets: seq<AssetRef>)

  datatype Meta = Meta(session: Option<string>, grounded: bool, sources: seq<Source>, debug: Value)

  function TextOrNull(t: Option<string>): Value {
    if t.Some? then VString(t.value) else VNull
  }

  function NumberOrNull(t: Option<string>): Value {
    if t.Some? then VNumber(t.value) else VNull
  }

  function AssetFields(a: AssetRef): seq<Field> {
    [Field("asset_id", VString(a.assetId)), Field("media_type", VString(a.mediaType)),
     Field("width", NumberOrNull(a.width)), Field("height", NumberOrNull(a.height)),
     Field("alt_text", TextOrNull(a.altText)), Field("caption", TextOrNull(a.caption)),
     Field("content_url", TextOrNull(a.contentUrl))]
  }

  function AssetValues(assets: seq<AssetRef>): (r: seq<Value>)
    ensures |r| == |assets| && forall i :: 0 <= i < |r| ==> r[i] == VObject(AssetFields(assets[i]))
  {
    if assets == [] then [] else [VObject(AssetFields(assets[0]))] + AssetValues(assets[1..])
  }

  function SourceFields(s: Source): seq<Field> {
    [Field("doc_id", VString(s.docId)), Field("chunk_id", VString(s.chunkId)), Field("source_path", VString(s.sourcePath)),
     Field("title", TextOrNull(s.title)), Field("page", NumberOrNull(s.page)), Field("section", TextOrNull(s.section)),
     Field("score", VNumber(s.score)), Field("snippet", VString(s.snippet)), Field("assets", VArray(AssetValues(s.assets)))]
  }

  function SourceValues(sources: seq<Source>): (r: seq<Value>)
    ensures |r| == |sources| && forall i :: 0 <= i < |r| ==> r[i] == VObject(SourceFields(sources[i]))
  {
    if sources == [] then [] else [VObject(SourceFields(sources[0]))] + SourceValues(sources[1..])
  }

  function MetaFields(m: Meta): seq<Field> {
    [Field("session_id", TextOrNull(m.session)), Field("grounded", VBool(m.grounded)),
     Field("sources", VArray(SourceValues(m.sources))), Field("debug", m.debug)]
  }

  /** The metadata of the response, as `answer_stream` puts it together. */
  function MetaValue(m: Meta): Value {
    VObject(MetaFields(m))
  }

  predicate NumeralOrNone(t: Option<string>) {
    t.Some? ==> Numeral(t.value)
  }

  predicate ProperSource(s: Source) {
    && NumeralOrNone(s.page) && Numeral(s.score)
    && forall i :: 0 <= i < |s.assets| ==> NumeralOrNone(s.assets[i].width) && NumeralOrNone(s.assets[i].height)
  }

  /** Numbers are numbers. */
  predicate ProperMeta(m: Meta) {
    Proper(m.debug) && forall i :: 0 <= i < |m.sources| ==> ProperSource(m.sources[i])
  }

  lemma AssetIsProper(a: AssetRef)
    requires NumeralOrNone(a.width) && NumeralOrNone(a.height)
    ensures Proper(VObject(AssetFields(a)))
  {
    var fields := AssetFields(a);
    assert Proper(fields[2].value) && Proper(fields[3].value);
  }

  lemma SourceIsProper(s: Source)
    requires ProperSource(s)
    ensures Proper(VObject(SourceFields(s)))
  {
    var fields := SourceFields(s);
    forall i | 0 <= i < |s.assets| ensures Proper(AssetValues(s.assets)[i]) {
      AssetIsProper(s.assets[i]);
    }
    assert Proper(fields[4].value) && Proper(fields[6].value) && Proper(fields[8].value);
  }

  lemma SourcesAreProper(sources: seq<Source>)
    requires forall i :: 0 <= i < |sources| ==> ProperSource(sources[i])
    ensures Proper(VArray(SourceValues(sources)))
  {
    forall i | 0 <= i < |sources| ensures Proper(SourceValues(sources)[i]) {
      SourceIsProper(sources[i]);
    }
  }

  lemma MetaIsProper(m: Meta)
    requires ProperMeta(m)
    ensures Proper(MetaValue(m))
  {
    hide SourceValues;
    SourcesAreProper(m.sources);
    assert forall j :: 0 <= j < 4 ==> Proper(MetaFields(m)[j].value);
  }

  lemma AssetIsOk(a: AssetRef)
    ensures AssetOk(ToJson(VObject(AssetFields(a))))
  {
    hide ToFields;
    var fields := AssetFields(a);
    assert |"asset_id"| == 8 && |"media_type"| == 10 && "asset_id"[0] == 'a';
    assert |"width"| == 5 && |"height"| == 6 && |"alt_text"| == 8 && "alt_text"[1] == 'l' && "asset_id"[1] == 's';
    assert |"caption"| == 7 && |"content_url"| == 11;
    assert forall i :: 1 <= i < 7 ==> fields[i].name != "asset_id";
    assert forall i :: 2 <= i < 7 ==> fields[i].name != "media_type";
    MemberOf(fields, 0);
    MemberOf(fields, 1);
  }

  lemma SourceIsOk(s: Source)
    ensures SourceOk(ToJson(VObject(SourceFields(s))))
  {
    hide ToFields, AssetFields, AssetOk;
    var fields := SourceFields(s);
    assert fields[9..] == [];
    MemberOf(fields, 8);
    forall i | 0 <= i < |s.assets| ensures AssetOk(ToJson(AssetValues(s.assets)[i])) {
      AssetIsOk(s.assets[i]);
    }
  }

  /** The client accepts metadata exactly when they name a session. */
  lemma MetaAccepted(m: Meta)
    ensures MetaOk(ToJson(MetaValue(m))) <==> m.session.Some?
  {
    hide ToFields, SourceFields, SourceOk;
    var fields := MetaFields(m);
    assert |"session_id"| == 10 && |"grounded"| == 8 && |"sources"| == 7 && |"debug"| == 5;
    assert forall i :: 1 <= i < 4 ==> fields[i].name != "session_id";
    assert forall i :: 2 <= i < 4 ==> fields[i].name != "grounded";
    assert fields[3].name != "sources";
    MemberOf(fields, 0);
    MemberOf(fields, 1);
    MemberOf(fields, 2);
    forall i | 0 <= i < |m.sources| ensures SourceOk(ToJson(SourceValues(m.sources)[i])) {
      SourceIsOk(m.sources[i]);
    }
  }

  // ---- Runs of the server ----------------------------------------------------------------------------

  function Answers(tokens: seq<string>): seq<Event> {
    if tokens == [] then [] else [Event("answer", DeltaText(tokens[0]))] + Answers(tokens[1..])
  }

  /** A run of the generator: it comes to its end, or something fails after some of the answer's
      tokens have been sent — before the first, between two, or when the metadata is printed. */
  datatype Run = Finished(meta: Meta) | Interrupted(sent: nat)

  predicate Happens(tokens: seq<string>, r: Run) {
    r.Interrupted? ==> r.sent <= |tokens|
  }

  /** `events()`: what the server yields. */
  function Yielded(tokens: seq<string>, r: Run): seq<Event>
    requires Happens(tokens, r)
  {
    match r
    case Finished(meta) => Answers(tokens) + [Event("meta", Dumps(MetaValue(meta))), Event("done", DoneText("completed"))]
    case Interrupted(sent) => Answers(tokens[..sent]) + [Event("error", ErrorText()), Event("done", DoneText("error"))]
  }

  /** The run that a failure before token `failAt`, or missing metadata, makes of an answer. */
  function RunOf(tokens: seq<string>, meta: Option<Meta>, failAt: Option<nat>): (r: Run)
    ensures Happens(tokens, r)
  {
    if failAt.Some? && failAt.value < |tokens| then Interrupted(failAt.value)
    else if failAt.Some? || meta.None? then Interrupted(|tokens|)
    else Finished(meta.value)
  }

  /** The generator itself: the answer's events one after another, and, if the printing of the
      metadata or anything before it fails, the two error events. */
  method Generate(tokens: seq<string>, meta: Option<Meta>, failAt: Option<nat>) returns (out: seq<Event>)
    ensures out == Yielded(tokens, RunOf(tokens, meta, failAt))
  {
    out := [];
    var i := 0;
    while i < |tokens| && failAt != Some(i)
      invariant i <= |tokens| && out == Answers(tokens[..i])
      invariant failAt.Some? ==> i <= failAt.value
    {
      out := out + [Event("answer", DeltaText(tokens[i]))];
      AnswersOneMore(tokens, i);
      i := i + 1;
    }
    assert tokens[..|tokens|] == tokens;
    if failAt.Some? || meta.None? {
      out := out + [Event("error", ErrorText()), Event("done", DoneText("error"))];
    } else {
      out := out + [Event("meta", Dumps(MetaValue(meta.value))), Event("done", DoneText("completed"))];
    }
  }

  lemma {:induction false} AnswersSum(a: seq<string>, b: seq<string>)
    ensures Answers(a + b) == Answers(a) + Answers(b)
    decreases |a|
  {
    if a == [] {
      assert a + b == b;
    } else {
      assert (a + b)[1..] == a[1..] + b;
      AnswersSum(a[1..], b);
    }
  }

  lemma AnswersOneMore(tokens: seq<string>, i: nat)
    requires i < |tokens|
    ensures Answers(tokens[..i + 1]) == Answers(tokens[..i]) + [Event("answer", DeltaText(tokens[i]))]
  {
    assert tokens[..i + 1] == tokens[..i] + [tokens[i]];
    AnswersSum(tokens[..i], [tokens[i]]);
    assert [tokens[i]][1..] == [];
    assert Answers([tokens[i]]) == [Event("answer", DeltaText(tokens[i]))];
  }

  // ---- What the client's parser must know ------------------------------------------------------

  /** JSON.parse on the texts the server prints: every printed document, and two literals. */
  ghost predicate Parses(json: string -> Option<Json>) {
    && (forall v: Value :: Proper(v) ==> json(Dumps(v)) == Some(ToJson(v)))
    && json(DoneText("completed")) == Some(JObject(map["reason" := JString("completed")]))
    && json(DoneText("error")) == Some(JObject(map["reason" := JString("error")]))
  }

  lemma WordsEscape()
    ensures Escape("reason") == "reason"
  {
    assert Escape("n") == "n";
    assert "on"[1..] == "n" && Escape("on") == "on";
    assert "son"[1..] == "on" && Escape("son") == "son";
    assert "ason"[1..] == "son" && Escape("ason") == "ason";
    assert "eason"[1..] == "ason" && Escape("eason") == "eason";
    assert "reason"[1..] == "eason";
  }

  /** The parser of printed documents does not read the literals: it insists on the space. */
  lemma LiteralIsNotPrinted(reason: string)
    ensures Parse(DoneText(reason)) == None
  {
    hide Escape, Unescape;
    var s := DoneText(reason);
    var colon := ":\"" + reason + "\"}";
    WordsEscape();
    UnescapeEscaped("reason", colon);
    assert s[1..] == "\"reason\"" + colon;
    assert s[1..][1..] == "reason" + "\"" + colon;
    assert s[0] == '{' && s[1] == '"';
    assert colon[..2][1] == '"' && ": "[1] == ' ';
    assert ParseFields(s[1..]) == None;
  }

  /** The parser that knows the two literals and reads everything else as a printed document. */
  function ReadText(text: string): Option<Json> {
    if text == DoneText("completed") then Some(JObject(map["reason" := JString("completed")]))
    else if text == DoneText("error") then Some(JObject(map["reason" := JString("error")]))
    else match Parse(text) case Some(v) => Some(ToJson(v)) case None => None
  }

  lemma SomeParserParses()
    ensures Parses(ReadText)
  {
    hide Parse, Dumps, Proper, DoneText, ToJson;
    forall v: Value | Proper(v) ensures ReadText(Dumps(v)) == Some(ToJson(v)) {
      ParseDumps(v);
      LiteralIsNotPrinted("completed");
      LiteralIsNotPrinted("error");
    }
    DoneTextsDiffer();
  }

  lemma DoneTextsDiffer()
    ensures DoneText("completed") != DoneText("error")
  {
    assert DoneText("completed")[11] == 'c' && DoneText("error")[11] == 'e';
  }

  lemma DumpsPrintable(v: Value)
    requires Proper(v)
    ensures OneLine(Dumps(v)) && Dumps(v) != ""
  {
    hide Dumps, Proper;
    DumpsOnOneLine(v);
  }

  lemma DeltaTextPrintable(t: string)
    ensures OneLine(DeltaText(t)) && DeltaText(t) != "" && Proper(DeltaValue(t))
  {
    hide Dumps;
    DumpsPrintable(DeltaValue(t));
  }

  lemma FixedTextsPrintable()
    ensures OneLine(ErrorText()) && ErrorText() != "" && Proper(ErrorValue())
    ensures OneLine(DoneText("completed")) && OneLine(DoneText("error")) && DoneText("completed") != "" && DoneText("error") != ""
  {
    hide ErrorMessage, Dumps;
    DumpsPrintable(ErrorValue());
  }

  // ---- Blocks and signals of a run ---------------------------------------------------------------

  ghost predicate AllPrintable(events: seq<Event>) {
    forall i :: 0 <= i < |events| ==> Printable(events[i]) && events[i].data != ""
  }

  lemma {:induction false} AnswersPrintable(tokens: seq<string>)
    ensures AllPrintable(Answers(tokens)) && |Answers(tokens)| == |tokens|
    decreases |tokens|
  {
    if tokens != [] {
      DeltaTextPrintable(tokens[0]);
      AnswersPrintable(tokens[1..]);
    }
  }

  function Sent(tokens: seq<string>, r: Run): seq<string>
    requires Happens(tokens, r)
  {
    if r.Interrupted? then tokens[..r.sent] else tokens
  }

  lemma PrintableSum(a: seq<Event>, b: seq<Event>)
    requires AllPrintable(a) && AllPrintable(b)
    ensures AllPrintable(a + b)
  {
  }

  /** The two events a run ends with. */
  function LastEvents(r: Run): seq<Event> {
    match r
    case Finished(meta) => [Event("meta", Dumps(MetaValue(meta))), Event("done", DoneText("completed"))]
    case Interrupted(_) => [Event("error", ErrorText()), Event("done", DoneText("error"))]
  }

  ghost predicate PlainMeta(r: Run) {
    r.Finished? ==> ProperMeta(r.meta)
  }

  lemma LastEventsPrintable(r: Run)
    requires PlainMeta(r)
    ensures AllPrintable(LastEvents(r))
  {
    hide ErrorText, DoneText, MetaValue, Dumps;
    FixedTextsPrintable();
    if r.Finished? {
      MetaIsProper(r.meta);
      DumpsPrintable(MetaValue(r.meta));
    }
  }

  lemma YieldedPrintable(tokens: seq<string>, r: Run)
    requires Happens(tokens, r) && PlainMeta(r)
    ensures AllPrintable(Yielded(tokens, r))
    ensures Yielded(tokens, r) == Answers(Sent(tokens, r)) + LastEvents(r)
  {
    hide ErrorText, DoneText, AllPrintable;
    LastEventsPrintable(r);
    AnswersPrintable(Sent(tokens, r));
    PrintableSum(Answers(Sent(tokens, r)), LastEvents(r));
  }

  function SignalsOf(json: string -> Option<Json>, events: seq<Event>): seq<Signal> {
    Signals(json, BlocksOf(events))
  }

  lemma {:induction false} SignalsSum(json: string -> Option<Json>, a: seq<Event>, b: seq<Event>)
    ensures SignalsOf(json, a + b) == SignalsOf(json, a) + SignalsOf(json, b)
    decreases |a|
  {
    hide SignalOf, Block;
    if a == [] {
      assert a + b == b;
      assert BlocksOf(a) == [];
    } else {
      assert (a + b)[1..] == a[1..] + b;
      SignalsSum(json, a[1..], b);
    }
  }

  function AnswerSignals(tokens: seq<string>): seq<Signal> {
    if tokens == [] then [] else [Answer(tokens[0])] + AnswerSignals(tokens[1..])
  }

  lemma SignalOfAnswer(json: string -> Option<Json>, token: string)
    requires Parses(json)
    ensures SignalOf(json, Block("answer", DeltaText(token))) == Answer(token)
  {
    hide DeltaText, ErrorText, DoneText, ParseEvent, Block, DeltaValue;
    DeltaTextPrintable(token);
    ParsePrinted(Event("answer", DeltaText(token)));
    ReadDelta(json, token);
  }

  lemma ReadDelta(json: string -> Option<Json>, token: string)
    requires Parses(json)
    ensures json(DeltaText(token)) == Some(JObject(map["delta" := JString(token)]))
  {
    hide Dumps, DoneText;
    assert Proper(DeltaValue(token));
    assert [Field("delta", VString(token))][..0] == [];
    assert ToFields([Field("delta", VString(token))]) == map["delta" := JString(token)];
  }

  lemma ReadError(json: string -> Option<Json>)
    requires Parses(json)
    ensures json(ErrorText()).Some? && !json(ErrorText()).value.JNull?
    ensures Member(json(ErrorText()).value, "code") == JString(ERROR_CODE)
  {
    hide Dumps, DoneText, ErrorMessage;
    var fields := [Field("code", VString(ERROR_CODE)), Field("message", VString(ErrorMessage()))];
    assert Proper(ErrorValue());
    assert |"code"| != |"message"|;
    MemberOf(fields, 0);
  }

  lemma ReadMeta(json: string -> Option<Json>, m: Meta)
    requires Parses(json) && ProperMeta(m)
    ensures json(Dumps(MetaValue(m))) == Some(ToJson(MetaValue(m)))
  {
    hide Dumps, DoneText, Proper, MetaValue, ToJson;
    MetaIsProper(m);
  }

  lemma {:induction false} SignalsOfAnswers(json: string -> Option<Json>, tokens: seq<string>)
    requires Parses(json)
    ensures SignalsOf(json, Answers(tokens)) == AnswerSignals(tokens)
    ensures |AnswerSignals(tokens)| == |tokens| && forall i :: 0 <= i < |tokens| ==> AnswerSignals(tokens)[i] == Answer(tokens[i])
    decreases |tokens|
  {
    hide DeltaText, SignalOf, Block, Parses;
    if tokens != [] {
      SignalOfAnswer(json, tokens[0]);
      SignalsOfAnswers(json, tokens[1..]);
      assert Answers(tokens)[1..] == Answers(tokens[1..]);
      assert BlocksOf(Answers(tokens)) == [Block("answer", DeltaText(tokens[0]))] + BlocksOf(Answers(tokens[1..]));
      assert BlocksOf(Answers(tokens))[1..] == BlocksOf(Answers(tokens[1..]));
    }
  }

  lemma SignalsOfPair(json: string -> Option<Json>, a: Event, b: Event)
    ensures var x, y := SignalOf(json, Block(a.name, a.data)), SignalOf(json, Block(b.name, b.data));
            !x.Ignored? && !y.Ignored? ==> SignalsOf(json, [a, b]) == [x, y]
  {
    hide SignalOf, Block;
    assert [a, b][1..] == [b] && [b][1..] == [];
    assert BlocksOf([b]) == [Block(b.name, b.data)];
    assert BlocksOf([a, b]) == [Block(a.name, a.data), Block(b.name, b.data)];
    var blocks := [Block(a.name, a.data), Block(b.name, b.data)];
    assert blocks[1..] == [Block(b.name, b.data)] && blocks[1..][1..] == [];
    assert Signals(json, blocks[1..][1..]) == [];
    if !SignalOf(json, blocks[0]).Ignored? && !SignalOf(json, blocks[1]).Ignored? {
      assert Signals(json, blocks[1..]) == [SignalOf(json, blocks[1])];
    }
  }

  /** What a run says to a client: `answer* meta done(completed)` or `answer* error done(error)`,
      unless its metadata name no session. */
  function Ending(r: Run): seq<Signal> {
    match r
    case Finished(meta) =>
      [if meta.session.Some? then Signal.Meta(ToJson(MetaValue(meta))) else Bad, Done(Some("completed"))]
    case Interrupted(_) => [Failure(ERROR_CODE), Done(Some("error"))]
  }

  lemma SignalOfMeta(json: string -> Option<Json>, m: Meta)
    requires Parses(json) && ProperMeta(m)
    ensures SignalOf(json, Block("meta", Dumps(MetaValue(m)))) == if m.session.Some? then Signal.Meta(ToJson(MetaValue(m))) else Bad
  {
    hide Dumps, MetaValue, ToJson, ParseEvent, Block, MetaOk, Parses;
    MetaIsProper(m);
    DumpsPrintable(MetaValue(m));
    ParsePrinted(Event("meta", Dumps(MetaValue(m))));
    ReadMeta(json, m);
    MetaAccepted(m);
  }

  lemma SignalOfError(json: string -> Option<Json>)
    requires Parses(json)
    ensures SignalOf(json, Block("error", ErrorText())) == Failure(ERROR_CODE)
  {
    hide ErrorText, ParseEvent, Block, Parses, ErrorValue;
    FixedTextsPrintable();
    ParsePrinted(Event("error", ErrorText()));
    ReadError(json);
  }

  lemma SignalOfDone(json: string -> Option<Json>, reason: string)
    requires Parses(json) && (reason == "completed" || reason == "error")
    ensures SignalOf(json, Block("done", DoneText(reason))) == Done(Some(reason))
  {
    hide DoneText, ParseEvent, Block, Dumps;
    FixedTextsPrintable();
    ParsePrinted(Event("done", DoneText(reason)));
  }

  lemma SignalsOfEnding(json: string -> Option<Json>, r: Run)
    requires Parses(json) && PlainMeta(r)
    ensures SignalsOf(json, LastEvents(r)) == Ending(r)
  {
    hide ErrorText, DoneText, Block, Dumps, MetaValue, SignalOf, Parses, ToJson, ProperMeta;
    var end := if r.Finished? then "completed" else "error";
    SignalOfDone(json, end);
    if r.Finished? {
      SignalOfMeta(json, r.meta);
      SignalsOfPair(json, Event("meta", Dumps(MetaValue(r.meta))), Event("done", DoneText(end)));
    } else {
      SignalOfError(json);
      SignalsOfPair(json, Event("error", ErrorText()), Event("done", DoneText(end)));
    }
  }

  lemma SignalsOfRun(json: string -> Option<Json>, tokens: seq<string>, r: Run)
    requires Parses(json) && Happens(tokens, r) && PlainMeta(r)
    ensures SignalsOf(json, Yielded(tokens, r)) == AnswerSignals(Sent(tokens, r)) + Ending(r)
  {
    hide ErrorText, DoneText, SignalOf, Parses, LastEvents, Ending;
    YieldedPrintable(tokens, r);
    SignalsOfAnswers(json, Sent(tokens, r));
    SignalsOfEnding(json, r);
    SignalsSum(json, Answers(Sent(tokens, r)), LastEvents(r));
  }

  // ---- Both sides ------------------------------------------------------------------------------------

  /** The signals the client reads off a run's text. */
  lemma SignalsOfText(json: string -> Option<Json>, tokens: seq<string>, r: Run)
    requires Parses(json) && Happens(tokens, r) && PlainMeta(r)
    ensures Signals(json, AllButLast(Split(PrintedAll(Yielded(tokens, r))))) == AnswerSignals(Sent(tokens, r)) + Ending(r)
  {
    hide SignalOf, Printable, ErrorText, DoneText, Split, Parses, Yielded, Ending;
    var events := Yielded(tokens, r);
    YieldedPrintable(tokens, r);
    SplitPrintedAll(events);
    assert AllButLast(BlocksOf(events) + [""]) == BlocksOf(events);
    SignalsOfRun(json, tokens, r);
  }

  /** Metadata without a session end a run in rejection. */
  lemma {:induction false} BadMetaRejected(s: State, tokens: seq<string>)
    requires s.terminal.Open? && !s.completed && !s.stale
    ensures ConsumeSignals(s, AnswerSignals(tokens) + [Bad, Done(Some("completed"))]) == Rejected
    decreases |tokens|
  {
    var all := AnswerSignals(tokens) + [Bad, Done(Some("completed"))];
    if tokens == [] {
      assert all[0] == Bad;
    } else {
      BadMetaRejected(s.(deltas := s.deltas + [tokens[0]]), tokens[1..]);
      assert all[1..] == AnswerSignals(tokens[1..]) + [Bad, Done(Some("completed"))];
    }
  }

  /** What the client makes of a run: an answer, the announced failure, or — if the metadata name
      no session — a protocol error. */
  lemma OutcomeOfRun(json: string -> Option<Json>, tokens: seq<string>, r: Run)
    requires Parses(json) && Happens(tokens, r) && PlainMeta(r)
    ensures OutcomeOf(json, PrintedAll(Yielded(tokens, r))) ==
              match r
              case Interrupted(_) => ServerError(ERROR_CODE)
              case Finished(meta) => if meta.session.Some? then Returned(tokens, Some(ToJson(MetaValue(meta)))) else Rejected
  {
    hide DoneText, Split, Parses, OutcomeOf, Yielded, PrintedAll, Signals, MetaValue, ToJson, ProperMeta, ConsumeSignals;
    var text := PrintedAll(Yielded(tokens, r));
    var blocks := AllButLast(Split(text));
    var signals := Signals(json, blocks);
    SignalsOfText(json, tokens, r);
    SignalsOfAnswers(json, Sent(tokens, r));
    match r
    case Interrupted(sent) =>
      assert FailedRun(signals, tokens[..sent], ERROR_CODE);
      assert ERROR_CODE[0] == 's' && AUTH_REQUIRED[0] == 'a';
      FailedRunReported(json, text, tokens[..sent], ERROR_CODE);
    case Finished(meta) =>
      if meta.session.Some? {
        ClientLanguages(json, text);
        assert CompletedRun(signals, tokens, ToJson(MetaValue(meta)));
      } else {
        BadMetaRejected(START, tokens);
        ReadAsSignals(json, text);
      }
  }

  lemma ReadAsSignals(json: string -> Option<Json>, text: string)
    requires var signals := Signals(json, AllButLast(Split(text))); signals == [] || Last(signals) != Failure(AUTH_REQUIRED)
    ensures OutcomeOf(json, text) == ConsumeSignals(START, Signals(json, AllButLast(Split(text))))
  {
    OtherEventsIgnored(json, START, AllButLast(Split(text)));
  }

  // ---- From the question on ---------------------------------------------------------------------------

  /** What a question says about its scope: a document, or a session to go on with. */
  datatype Question = Question(document: Option<string>, session: Option<string>)

  datatype Reply = Reply(grounded: bool, sources: seq<Source>, debug: Value)

  predicate ProperReply(reply: Reply) {
    Proper(reply.debug) && forall i :: 0 <= i < |reply.sources| ==> ProperSource(reply.sources[i])
  }

  /** `resolved_session_id`: none for a document-scoped question, otherwise the given session or
      a fresh one. */
  function SessionOf(q: Question, uuid: string): Option<string> {
    if q.document.Some? then None
    else if q.session.Some? && q.session.value != "" then q.session
    else Some(uuid)
  }

  /** The run of a question: one that gives both a document and a session fails at once; `failAt`
      says before which token, if at all, something else fails. */
  function RunFor(q: Question, uuid: string, reply: Reply, tokens: seq<string>, failAt: Option<nat>): (r: Run)
    ensures Happens(tokens, r)
  {
    if q.document.Some? && q.session.Some? then Interrupted(0)
    else RunOf(tokens, Some(Meta.Meta(SessionOf(q, uuid), reply.grounded, reply.sources, reply.debug)), failAt)
  }

  /** A question is answered, for this client, exactly when nothing fails and it is not scoped to
      a document: document-scoped answers name no session, and the client takes that for a
      protocol error. */
  lemma AnsweredExactly(json: string -> Option<Json>, q: Question, uuid: string, reply: Reply, tokens: seq<string>, failAt: Option<nat>)
    requires Parses(json) && ProperReply(reply)
    ensures var o := OutcomeOf(json, PrintedAll(Yielded(tokens, RunFor(q, uuid, reply, tokens, failAt))));
            && (o.Returned? <==> failAt.None? && q.document.None?)
            && (o.Returned? ==> o.deltas == tokens)
            && (o == ServerError(ERROR_CODE) <==> failAt.Some? || (q.document.Some? && q.session.Some?))
            && (o == Rejected <==> failAt.None? && q.document.Some? && q.session.None?)
  {
    hide OutcomeOf, PrintedAll, Yielded, Parses, MetaValue, ToJson;
    OutcomeOfRun(json, tokens, RunFor(q, uuid, reply, tokens, failAt));
  }

  /** A document-scoped question, answered without a fault: the client rejects the answer. */
  lemma DocumentScopedIsRejected(document: string, uuid: string)
    ensures var q := Question(Some(document), None);
            OutcomeOf(ReadText, PrintedAll(Yielded(["Yes."], RunFor(q, uuid, Reply(true, [], VNull), ["Yes."], None)))) == Rejected
  {
    hide Parses, OutcomeOf, PrintedAll, Yielded, RunFor;
    SomeParserParses();
    AnsweredExactly(ReadText, Question(Some(document), None), uuid, Reply(true, [], VNull), ["Yes."], None);
  }

  /** The stream, end to end: any answer, any cutting of the printed text into chunks.  A
      finished run with a session hands over the answer unchanged with its metadata, an
      interrupted one reports the server's error, and the client's loop ends with exactly that. */
  method Deliver(json: string -> Option<Json>, answer: string, space: char -> bool, r: Run, chunks: seq<string>)
    returns (outcome: Outcome)
    requires Parses(json) && Happens(Tokens(answer, space), r) && PlainMeta(r)
    requires Joined(chunks) == PrintedAll(Yielded(Tokens(answer, space), r))
    ensures r.Finished? && r.meta.session.Some? ==>
              outcome.Returned? && Concat(outcome.deltas) == answer && outcome.meta == Some(ToJson(MetaValue(r.meta)))
    ensures r.Finished? && r.meta.session.None? ==> outcome == Rejected
    ensures r.Interrupted? ==> outcome == ServerError(ERROR_CODE)
  {
    OutcomeOfRun(json, Tokens(answer, space), r);
    TokensConcat(answer, space);
    var reader := new StreamReader(json);
    outcome := reader.Stream(chunks);
  }

  // ---- A stream that is cut short ---------------------------------------------------------------------

  /** A text that stops anywhere before its end has lost at least one block. */
  lemma CutLosesBlocks(events: seq<Event>, cut: string, rest: string) returns (n: nat)
    requires AllPrintable(events) && cut + rest == PrintedAll(events) && rest != ""
    ensures n < |BlocksOf(events)| && AllButLast(Split(cut)) == BlocksOf(events)[..n]
  {
    var blocks := AllButLast(Split(cut));
    var tail := Split(Last(Split(cut)) + rest);
    SplitContinues(cut, rest);
    SplitPrintedAll(events);
    assert blocks + tail == BlocksOf(events) + [""];
    n := |blocks|;
    SingleSplit(Last(Split(cut)) + rest);
    assert (blocks + tail)[n] == tail[0];
    assert (blocks + tail)[..n] == blocks && (BlocksOf(events) + [""])[..n] == BlocksOf(events)[..n];
  }

  lemma SingleSplit(s: string)
    ensures |Split(s)| == 1 ==> Split(s) == [s]
  {
  }

  lemma {:induction false} SignalsOfBlocks(json: string -> Option<Json>, blocks: seq<string>, n: nat)
    requires n <= |blocks| && (forall i :: 0 <= i < |blocks| ==> !SignalOf(json, blocks[i]).Ignored?)
    ensures |Signals(json, blocks)| == |blocks| && Signals(json, blocks[..n]) == Signals(json, blocks)[..n]
    decreases |blocks|
  {
    hide SignalOf;
    if blocks != [] {
      SignalsOfBlocks(json, blocks[1..], if n == 0 then 0 else n - 1);
      if n > 0 {
        assert blocks[..n][0] == blocks[0] && blocks[..n][1..] == blocks[1..][..n - 1];
      }
    }
  }

  /** Some of a run's signals, but not all, leave the client waiting, unless metadata without a
      session have been read. */
  lemma {:induction false} PartOfRun(s: State, tokens: seq<string>, ending: seq<Signal>, n: nat)
    requires s.terminal.Open? && !s.completed && !s.stale
    requires ending == [Failure(ERROR_CODE), Done(Some("error"))]
          || (|ending| == 2 && (ending[0].Meta? || ending[0].Bad?) && ending[1] == Done(Some("completed")))
    requires n < |AnswerSignals(tokens) + ending|
    ensures ConsumeSignals(s, (AnswerSignals(tokens) + ending)[..n])
         == if ending[0].Bad? && n == |AnswerSignals(tokens)| + 1 then Rejected else Incomplete
    decreases |tokens|
  {
    var all := AnswerSignals(tokens) + ending;
    if n == 0 {
      assert all[..n] == [];
    } else if tokens == [] {
      assert all == ending && all[..1] == [ending[0]];
      StartOfEnding(s, ending[0]);
    } else {
      var t := s.(deltas := s.deltas + [tokens[0]]);
      var rest := AnswerSignals(tokens[1..]) + ending;
      PartOfRun(t, tokens[1..], ending, n - 1);
      assert all == [Answer(tokens[0])] + rest;
      assert all[..n] == [Answer(tokens[0])] + rest[..n - 1];
      OneDeltaMore(s, tokens[0], rest[..n - 1]);
    }
  }

  lemma StartOfEnding(s: State, g: Signal)
    requires s.terminal.Open? && !s.completed && !s.stale && (g == Failure(ERROR_CODE) || g.Meta? || g.Bad?)
    ensures ConsumeSignals(s, [g]) == if g.Bad? then Rejected else Incomplete
  {
    assert ERROR_CODE[0] == 's' && AUTH_REQUIRED[0] == 'a';
    assert [g][1..] == [];
  }

  lemma OneDeltaMore(s: State, token: string, rest: seq<Signal>)
    requires s.terminal.Open? && !s.completed && !s.stale
    ensures ConsumeSignals(s, [Answer(token)] + rest) == ConsumeSignals(s.(deltas := s.deltas + [token]), rest)
  {
    assert ([Answer(token)] + rest)[1..] == rest;
  }

  /** A connection that ends early, at any character, is never mistaken for an answer or for a
      reported error: the client says the stream is incomplete, or has already rejected it because
      its metadata name no session. */
  lemma TruncationIsNoticed(json: string -> Option<Json>, tokens: seq<string>, r: Run, cut: string, rest: string)
    requires Parses(json) && Happens(tokens, r) && PlainMeta(r)
    requires cut + rest == PrintedAll(Yielded(tokens, r)) && rest != ""
    ensures OutcomeOf(json, cut) == Incomplete || (OutcomeOf(json, cut) == Rejected && r.Finished? && r.meta.session.None?)
  {
    hide SignalOf, Printable, DoneText, Split, Parses, Yielded, MetaValue, ToJson, ProperMeta;
    var events := Yielded(tokens, r);
    YieldedPrintable(tokens, r);
    var n := CutLosesBlocks(events, cut, rest);
    SignalsOfRun(json, tokens, r);
    NothingIgnored(json, tokens, r);
    SignalsOfBlocks(json, BlocksOf(events), n);
    PartOfRun(START, Sent(tokens, r), Ending(r), n);
    OtherEventsIgnored(json, START, BlocksOf(events)[..n]);
  }

  lemma NothingIgnored(json: string -> Option<Json>, tokens: seq<string>, r: Run)
    requires Parses(json) && Happens(tokens, r) && PlainMeta(r)
    ensures var blocks := BlocksOf(Yielded(tokens, r));
            forall i :: 0 <= i < |blocks| ==> !SignalOf(json, blocks[i]).Ignored?
  {
    hide SignalOf;
    SignalsOfRun(json, tokens, r);
    SignalsOfAnswers(json, Sent(tokens, r));
    AnswersPrintable(Sent(tokens, r));
    BlocksCount(Yielded(tokens, r));
    NoneDropped(json, BlocksOf(Yielded(tokens, r)));
  }

  lemma {:induction false} BlocksCount(events: seq<Event>)
    ensures |BlocksOf(events)| == |events|
    decreases |events|
  {
    if events != [] {
      BlocksCount(events[1..]);
    }
  }

  lemma {:induction false} NoneDropped(json: string -> Option<Json>, blocks: seq<string>)
    ensures |Signals(json, blocks)| <= |blocks|
    ensures |Signals(json, blocks)| == |blocks| ==> forall i :: 0 <= i < |blocks| ==> !SignalOf(json, blocks[i]).Ignored?
    decreases |blocks|
  {
    hide SignalOf;
    if blocks != [] {
      NoneDropped(json, blocks[1..]);
      assert |Signals(json, blocks)| == |blocks| ==> forall i :: 0 < i < |blocks| ==> blocks[i] == blocks[1..][i - 1];
    }
  }
}
