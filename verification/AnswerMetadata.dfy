/** What the reader of an answer gets besides its text: every member of the metadata, under its name. */
module AnswerMetadata {
  import opened Text
  import opened JsonText
  import opened JsonValue
  import EventStream
  import opened StreamClient
  import opened AnswerStream

  ghost predicate NullOrText(v: Json, field: string, t: Option<string>) {
    v.JObject? && field in v.fields && v.fields[field] == if t.Some? then JString(t.value) else JNull
  }

  ghost predicate NullOrNumber(v: Json, field: string, t: Option<string>) {
    v.JObject? && field in v.fields && v.fields[field] == if t.Some? then JNumber(t.value) else JNull
  }

  ghost predicate ShowsAsset(v: Json, a: AssetRef) {
    && TextIn(v, "asset_id", a.assetId) && TextIn(v, "media_type", a.mediaType)
    && NullOrNumber(v, "width", a.width) && NullOrNumber(v, "height", a.height)
    && NullOrText(v, "alt_text", a.altText) && NullOrText(v, "caption", a.caption) && NullOrText(v, "content_url", a.contentUrl)
  }

  ghost predicate ShowsSource(v: Json, s: Source) {
    && TextIn(v, "doc_id", s.docId) && TextIn(v, "chunk_id", s.chunkId) && TextIn(v, "source_path", s.sourcePath)
    && NullOrText(v, "title", s.title) && NullOrNumber(v, "page", s.page) && NullOrText(v, "section", s.section)
    && NullOrNumber(v, "score", Some(s.score)) && TextIn(v, "snippet", s.snippet)
    && "assets" in v.fields && v.fields["assets"].JArray? && |v.fields["assets"].items| == |s.assets|
    && forall i :: 0 <= i < |s.assets| ==> ShowsAsset(v.fields["assets"].items[i], s.assets[i])
  }

  ghost predicate ShowsMeta(v: Json, m: Meta) {
    && NullOrText(v, "session_id", m.session)
    && "grounded" in v.fields && v.fields["grounded"] == JBool(m.grounded)
    && "sources" in v.fields && v.fields["sources"].JArray? && |v.fields["sources"].items| == |m.sources|
    && (forall i :: 0 <= i < |m.sources| ==> ShowsSource(v.fields["sources"].items[i], m.sources[i]))
    && "debug" in v.fields && v.fields["debug"] == ToJson(m.debug)
  }

  ghost predicate NamesDiffer(fields: seq<Field>) {
    forall i, j :: 0 <= i < j < |fields| ==> fields[i].name != fields[j].name
  }

  /** With different names every member is found under its own. */
  lemma AllThere(fields: seq<Field>)
    requires NamesDiffer(fields)
    ensures forall i :: 0 <= i < |fields| ==> fields[i].name in ToFields(fields) && ToFields(fields)[fields[i].name] == ToJson(fields[i].value)
  {
    hide ToFields;
    forall i | 0 <= i < |fields|
      ensures fields[i].name in ToFields(fields) && ToFields(fields)[fields[i].name] == ToJson(fields[i].value)
    {
      LastCounts(fields, fields[i].name);
      assert LastOfName(fields, i, fields[i].name);
    }
  }

  lemma AssetNamesDiffer(a: AssetRef)
    ensures NamesDiffer(AssetFields(a))
  {
    assert |"asset_id"| == 8 && |"media_type"| == 10 && |"width"| == 5 && |"height"| == 6 && |"alt_text"| == 8;
    assert |"caption"| == 7 && |"content_url"| == 11 && "asset_id"[1] == 's' && "alt_text"[1] == 'l';
  }

  lemma SourceNamesDiffer(s: Source)
    ensures NamesDiffer(SourceFields(s))
  {
    assert |"doc_id"| == 6 && |"chunk_id"| == 8 && |"source_path"| == 11 && |"title"| == 5 && |"page"| == 4 && |"section"| == 7;
    assert |"score"| == 5 && |"snippet"| == 7 && |"assets"| == 6;
    assert "title"[0] == 't' && "score"[0] == 's' && "section"[1] == 'e' && "snippet"[1] == 'n' && "doc_id"[0] == 'd' && "assets"[0] == 'a';
  }

  lemma MetaNamesDiffer(m: Meta)
    ensures NamesDiffer(MetaFields(m))
  {
    assert |"session_id"| == 10 && |"grounded"| == 8 && |"sources"| == 7 && |"debug"| == 5;
  }

  lemma AssetShown(a: AssetRef)
    ensures ShowsAsset(ToJson(VObject(AssetFields(a))), a)
  {
    hide ToFields;
    var fields := AssetFields(a);
    AssetNamesDiffer(a);
    AllThere(fields);
    assert fields[0].name == "asset_id" && fields[1].name == "media_type" && fields[2].name == "width" && fields[3].name == "height";
    assert fields[4].name == "alt_text" && fields[5].name == "caption" && fields[6].name == "content_url";
  }

  lemma SourceShown(s: Source)
    ensures ShowsSource(ToJson(VObject(SourceFields(s))), s)
  {
    hide ToFields, AssetFields, ShowsAsset;
    var fields := SourceFields(s);
    SourceNamesDiffer(s);
    AllThere(fields);
    assert fields[0].name == "doc_id" && fields[1].name == "chunk_id" && fields[2].name == "source_path" && fields[3].name == "title";
    assert fields[4].name == "page" && fields[5].name == "section" && fields[6].name == "score" && fields[7].name == "snippet";
    assert fields[8].name == "assets";
    forall i | 0 <= i < |s.assets| ensures ShowsAsset(ToJson(AssetValues(s.assets)[i]), s.assets[i]) {
      AssetShown(s.assets[i]);
    }
  }

  /** The metadata as the client's parser returns them show the session, whether the answer is
      grounded, and every source with all its assets, each value under its own name. */
  lemma MetadataShown(m: Meta)
    ensures ShowsMeta(ToJson(MetaValue(m)), m)
  {
    hide ToFields, SourceFields, ShowsSource;
    var fields := MetaFields(m);
    MetaNamesDiffer(m);
    AllThere(fields);
    assert fields[0].name == "session_id" && fields[1].name == "grounded" && fields[2].name == "sources" && fields[3].name == "debug";
    forall i | 0 <= i < |m.sources| ensures ShowsSource(ToJson(SourceValues(m.sources)[i]), m.sources[i]) {
      SourceShown(m.sources[i]);
    }
  }

  /** When an answer is complete, the client has its tokens in their order and metadata that show the
      session of the question, the reply's grounding and its sources. */
  lemma WhatTheReaderGets(json: string -> Option<Json>, q: Question, uuid: string, reply: Reply, tokens: seq<string>, o: Outcome)
    requires Parses(json) && ProperReply(reply) && q.document.None?
    requires o == OutcomeOf(json, EventStream.PrintedAll(Yielded(tokens, RunFor(q, uuid, reply, tokens, None))))
    ensures o.Returned? && o.deltas == tokens && o.meta.Some?
    ensures var session := if q.session.Some? && |q.session.value| > 0 then q.session.value else uuid;
            ShowsMeta(o.meta.value, Meta.Meta(Some(session), reply.grounded, reply.sources, reply.debug))
  {
    hide OutcomeOf, EventStream.PrintedAll, Yielded, Parses, MetaValue, ShowsMeta;
    var run := RunFor(q, uuid, reply, tokens, None);
    OutcomeOfRun(json, tokens, run);
    MetadataShown(run.meta);
  }

  /** A run is finished if nothing fails and there are metadata; otherwise it is interrupted, before the
      token at which it fails, or after the last. */
  lemma HowARunEnds(tokens: seq<string>, meta: Option<Meta>, failAt: Option<nat>)
    ensures forall m :: RunOf(tokens, meta, failAt) == Finished(m) <==> failAt == None && meta == Some(m)
    ensures forall n: nat :: RunOf(tokens, meta, failAt) == Interrupted(n) <==>
              || (failAt == Some(n) && n <= |tokens|)
              || (n == |tokens| && ((failAt.None? && meta.None?) || (failAt.Some? && failAt.value > n)))
  {
  }

  /** The error that is announced has this code and this message. */
  lemma ErrorShown()
    ensures TextIn(ToJson(ErrorValue()), "code", "stream_interrupted")
    ensures TextIn(ToJson(ErrorValue()), "message", "The answer stream was " + "interrupted. Please try again.")
  {
    hide ToFields;
    var fields := [Field("code", VString(ERROR_CODE)), Field("message", VString(ErrorMessage()))];
    assert |"code"| == 4 && |"message"| == 7;
    AllThere(fields);
    assert fields[0].name == "code" && fields[1].name == "message";
  }
}
