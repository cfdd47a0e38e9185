/** Continuation tokens: a JSON payload in URL-safe base64, a dot, and a signature. */
module CursorToken {
  import opened Text
  import Base64Url

  type Bytes = seq<Base64Url.Byte>

  /** A JSON value, as far as the checks look into it. */
  datatype Json = JNull | JString(s: string) | JInt(n: int) | JObject(fields: map<string, Json>) | JOther(text: string)

  type Payload = map<string, Json>

  /** The library functions behind a token: JSON, the keyed hash, ISO dates, digits. */
  datatype Codec = Codec(
    dumps: Payload -> Bytes, loads: Bytes -> Option<Json>, sign: string -> string,
    zoned: string -> bool, digit: char -> bool)

  /** JSON reads back what it wrote and never writes nothing; hexadecimal has no dot. */
  ghost predicate Faithful(c: Codec) {
    && (forall p: Payload :: c.loads(c.dumps(p)) == Some(JObject(p)) && c.dumps(p) != [])
    && (forall s: string :: '.' !in c.sign(s))
  }

  const VERSION := 1
  const WINDOW := 900
  const SKEW := 30
  const MAX_TOKEN := 4096
  const MAX_LIMIT := 100

  /** `token.split(".")`. */
  function Fields(s: string): seq<string>
    decreases |s|
  {
    var i := FirstDot(s);
    if i == |s| then [s] else [s[..i]] + Fields(s[i + 1..])
  }

  function FirstDot(s: string): (i: nat)
    ensures i <= |s| && (forall j :: 0 <= j < i ==> s[j] != '.') && (i < |s| ==> s[i] == '.')
  {
    if s == "" || s[0] == '.' then 0 else 1 + FirstDot(s[1..])
  }

  predicate NonEmptyString(p: Payload, field: string) {
    field in p && p[field].JString? && p[field].s != ""
  }

  predicate IsInt(p: Payload, field: string) {
    field in p && p[field].JInt?
  }

  /** `str.isdigit()` of a nonempty string. */
  predicate AllDigit(c: Codec, s: string) {
    forall i :: 0 <= i < |s| ==> c.digit(s[i])
  }

  /** The checks of a decoded payload. */
  predicate Valid(c: Codec, p: Payload, now: int) {
    && IsInt(p, "v") && p["v"].n == VERSION
    && NonEmptyString(p, "workspace") && NonEmptyString(p, "model") && NonEmptyString(p, "chunking")
    && NonEmptyString(p, "subject") && NonEmptyString(p, "revision") && NonEmptyString(p, "last_id")
    && AllDigit(c, p["revision"].s)
    && IsInt(p, "limit") && 1 <= p["limit"].n <= MAX_LIMIT
    && IsInt(p, "issued") && IsInt(p, "expires")
    && p["expires"].n - p["issued"].n == WINDOW && p["issued"].n <= now + SKEW
    && ("last_time" in p && p["last_time"] != JNull ==> p["last_time"].JString? && c.zoned(p["last_time"].s))
  }

  function Encode(c: Codec, p: Payload): string {
    var data := Base64Url.Encode(c.dumps(p));
    data + "." + c.sign(data)
  }

  function Decode(c: Codec, token: string, now: int): Option<Payload> {
    var parts := Fields(token);
    if !(1 <= |token| <= MAX_TOKEN) || |parts| != 2 then None
    else if parts[0] == "" || !Base64Url.AllLetters(parts[0]) || c.sign(parts[0]) != parts[1] then None
    else
      match Base64Url.Decode(parts[0])
      case None => None
      case Some(bytes) =>
        match c.loads(bytes)
        case Some(JObject(p)) => if Valid(c, p, now) then Some(p) else None
        case _ => None
  }

  lemma TwoFields(a: string, b: string)
    requires '.' !in a && '.' !in b
    ensures Fields(a + "." + b) == [a, b]
  {
    var s := a + "." + b;
    assert s[|a|] == '.';
    assert forall j :: 0 <= j < |a| ==> s[j] == a[j];
    assert FirstDot(s) == |a|;
    assert s[..|a|] == a && s[|a| + 1..] == b;
    assert Fields(b) == [b];
  }

  lemma {:induction false} FieldsJoin(s: string)
    ensures Fields(s) != []
    ensures |Fields(s)| == 1 ==> Fields(s) == [s]
    ensures |Fields(s)| == 2 ==> s == Fields(s)[0] + "." + Fields(s)[1]
    decreases |s|
  {
    hide FirstDot;
    var i := FirstDot(s);
    if i < |s| {
      FieldsJoin(s[i + 1..]);
      assert s == s[..i] + "." + s[i + 1..];
    }
  }

  lemma NoDotInLetters(data: string)
    requires Base64Url.AllLetters(data)
    ensures '.' !in data
  {
  }

  /** A token decodes to the payload it was made from exactly when that payload is valid and
      the token is not too long. */
  lemma DecodeEncode(c: Codec, p: Payload, now: int)
    requires Faithful(c)
    ensures Decode(c, Encode(c, p), now) ==
              if Valid(c, p, now) && |Encode(c, p)| <= MAX_TOKEN then Some(p) else None
  {
    hide Valid, Base64Url.Encode, Base64Url.Decode;
    var data := Base64Url.Encode(c.dumps(p));
    Base64Url.DecodeEncode(c.dumps(p));
    Base64Url.StrippedOfPadded(c.dumps(p));
    NoDotInLetters(data);
    TwoFields(data, c.sign(data));
  }

  /** Distinct payloads have distinct tokens: the dot and the encoding lose nothing. */
  lemma EncodeInjective(c: Codec, p: Payload, q: Payload)
    requires Faithful(c) && Encode(c, p) == Encode(c, q)
    ensures p == q
  {
    hide Base64Url.Encode, Base64Url.Decode;
    var d, e := Base64Url.Encode(c.dumps(p)), Base64Url.Encode(c.dumps(q));
    Base64Url.StrippedOfPadded(c.dumps(p));
    Base64Url.StrippedOfPadded(c.dumps(q));
    TwoFields(d, c.sign(d));
    TwoFields(e, c.sign(e));
    assert [d, c.sign(d)][0] == [e, c.sign(e)][0];
    Base64Url.DecodeEncode(c.dumps(p));
    Base64Url.DecodeEncode(c.dumps(q));
    assert Some(JObject(p)) == c.loads(c.dumps(p)) == Some(JObject(q));
  }

  /** Whatever is accepted carries the signature of its own data and a valid payload. */
  lemma AcceptedIsSigned(c: Codec, token: string, now: int)
    requires Decode(c, token, now).Some?
    ensures Valid(c, Decode(c, token, now).value, now) && 1 <= |token| <= MAX_TOKEN
    ensures exists data :: Base64Url.AllLetters(data) && token == data + "." + c.sign(data)
  {
    FieldsJoin(token);
  }

  // ---- The payloads the list service writes -------------------------------------------------

  /** The position a page ended at, and what it was a page of. */
  datatype Cursor = Cursor(
    workspace: string, model: string, chunking: string, subject: string, limit: int, revision: string,
    lastId: string, lastTime: Option<string>, issued: int, expires: int)

  function ToPayload(k: Cursor): Payload {
    map["v" := JInt(VERSION), "workspace" := JString(k.workspace), "model" := JString(k.model),
        "chunking" := JString(k.chunking), "subject" := JString(k.subject), "limit" := JInt(k.limit),
        "revision" := JString(k.revision), "last_id" := JString(k.lastId),
        "last_time" := (match k.lastTime case Some(t) => JString(t) case None => JNull),
        "issued" := JInt(k.issued), "expires" := JInt(k.expires)]
  }

  function FromPayload(c: Codec, p: Payload, now: int): Cursor
    requires Valid(c, p, now)
  {
    Cursor(p["workspace"].s, p["model"].s, p["chunking"].s, p["subject"].s, p["limit"].n, p["revision"].s, p["last_id"].s,
           if "last_time" in p && p["last_time"].JString? then Some(p["last_time"].s) else None, p["issued"].n, p["expires"].n)
  }

  /** What a cursor must satisfy to come back. */
  predicate Returns(c: Codec, k: Cursor, now: int) {
    && k.workspace != "" && k.model != "" && k.chunking != "" && k.subject != "" && k.revision != "" && k.lastId != ""
    && AllDigit(c, k.revision) && 1 <= k.limit <= MAX_LIMIT
    && k.expires - k.issued == WINDOW && k.issued <= now + SKEW
    && (k.lastTime.Some? ==> c.zoned(k.lastTime.value))
  }

  function Token(c: Codec, k: Cursor): string {
    Encode(c, ToPayload(k))
  }

  function Read(c: Codec, token: string, now: int): Option<Cursor> {
    match Decode(c, token, now)
    case Some(p) => (AcceptedIsSigned(c, token, now); Some(FromPayload(c, p, now)))
    case None => None
  }

  lemma PayloadRoundTrip(c: Codec, k: Cursor, now: int)
    ensures Valid(c, ToPayload(k), now) <==> Returns(c, k, now)
    ensures Valid(c, ToPayload(k), now) ==> FromPayload(c, ToPayload(k), now) == k
  {
  }

  /** The object says this of the cursor, member by member; without a time it says `null` or nothing. */
  ghost predicate Says(p: Payload, k: Cursor) {
    && p.Keys >= {"v", "workspace", "model", "chunking", "subject", "limit", "revision", "last_id", "issued", "expires"}
    && p["v"] == JInt(1) && p["limit"] == JInt(k.limit) && p["issued"] == JInt(k.issued) && p["expires"] == JInt(k.expires)
    && p["workspace"] == JString(k.workspace) && p["model"] == JString(k.model) && p["chunking"] == JString(k.chunking)
    && p["subject"] == JString(k.subject) && p["revision"] == JString(k.revision) && p["last_id"] == JString(k.lastId)
    && match k.lastTime
       case Some(t) => "last_time" in p && p["last_time"] == JString(t)
       case None => "last_time" in p ==> p["last_time"] == JNull
  }

  /** Names that are not empty, a revision of digits, a page of 1 to 100 rows, a window of fifteen
      minutes that began no later than half a minute from now, a time with its zone. */
  ghost predicate Plausible(c: Codec, k: Cursor, now: int) {
    && "" !in {k.workspace, k.model, k.chunking, k.subject, k.revision, k.lastId}
    && (forall ch :: ch in k.revision ==> c.digit(ch)) && 0 < k.limit < 101
    && k.expires == k.issued + 900 && k.issued - now <= 30
    && (k.lastTime.Some? ==> c.zoned(k.lastTime.value))
  }

  /** The token is this data, a dot, and the signature of the data; the data decodes to this object. */
  ghost predicate Carries(c: Codec, token: string, data: string, bytes: Bytes, p: Payload) {
    && token == data + "." + c.sign(data) && '.' !in c.sign(data) && data != "" && Base64Url.AllLetters(data)
    && Base64Url.Decode(data) == Some(bytes) && c.loads(bytes) == Some(JObject(p))
  }

  lemma ValidSays(c: Codec, p: Payload, now: int, k: Cursor)
    ensures Valid(c, p, now) && FromPayload(c, p, now) == k <==> Says(p, k) && Plausible(c, k, now)
  {
  }

  lemma DecodedCarries(c: Codec, token: string, now: int, p: Payload)
    requires Decode(c, token, now) == Some(p)
    ensures |token| <= 4096 && Valid(c, p, now) && exists data, bytes :: Carries(c, token, data, bytes, p)
  {
    hide Valid, Base64Url.Decode, Base64Url.AllLetters;
    var parts := Fields(token);
    FieldsJoin(token);
    FieldsDotless(token);
    assert Carries(c, token, parts[0], Base64Url.Decode(parts[0]).value, p);
  }

  lemma CarriedIsDecoded(c: Codec, token: string, data: string, bytes: Bytes, p: Payload, now: int)
    requires Carries(c, token, data, bytes, p) && |token| <= 4096 && Valid(c, p, now)
    ensures Decode(c, token, now) == Some(p)
  {
    hide Valid, Base64Url.Decode;
    NoDotInLetters(data);
    TwoFields(data, c.sign(data));
  }

  lemma {:induction false} FieldsDotless(s: string)
    ensures forall i :: 0 <= i < |Fields(s)| ==> '.' !in Fields(s)[i]
    decreases |s|
  {
    var i := FirstDot(s);
    if i < |s| {
      FieldsDotless(s[i + 1..]);
    }
  }

  /** Exactly which tokens are read as which cursors: no more than 4096 characters, signed data that
      decodes to an object that says all of this cursor, and a plausible one. */
  lemma ReadExactly(c: Codec, token: string, now: int, k: Cursor)
    ensures Read(c, token, now) == Some(k) <==>
              |token| <= 4096 && Plausible(c, k, now) && exists data, bytes, p :: Carries(c, token, data, bytes, p) && Says(p, k)
  {
    hide Valid, FromPayload, Says, Plausible, Carries, Decode;
    if Read(c, token, now) == Some(k) {
      var p := Decode(c, token, now).value;
      DecodedCarries(c, token, now, p);
      ValidSays(c, p, now, k);
    }
    if |token| <= 4096 && Plausible(c, k, now) && exists data, bytes, p :: Carries(c, token, data, bytes, p) && Says(p, k) {
      var data, bytes, p :| Carries(c, token, data, bytes, p) && Says(p, k);
      ValidSays(c, p, now, k);
      CarriedIsDecoded(c, token, data, bytes, p, now);
    }
  }

  lemma ReadToken(c: Codec, k: Cursor, now: int)
    requires Faithful(c)
    ensures Read(c, Token(c, k), now) == if Returns(c, k, now) && |Token(c, k)| <= MAX_TOKEN then Some(k) else None
  {
    hide Valid, ToPayload, Returns, FromPayload, Encode, Decode;
    DecodeEncode(c, ToPayload(k), now);
    PayloadRoundTrip(c, k, now);
  }
}
