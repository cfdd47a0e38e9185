/** JSON as far as the stream needs it: values, and the escaping of strings (section 7 of
    RFC 8259) that keeps them on one line. */
module JsonText {
  import opened Text

  datatype Json =
    | JNull | JBool(b: bool) | JNumber(text: string) | JString(s: string)
    | JArray(items: seq<Json>) | JObject(fields: map<string, Json>)

  function HexDigit(n: nat): char
    requires n < 16
  {
    if n < 10 then '0' + n as char else 'a' + (n - 10) as char
  }

  function HexValue(c: char): Option<nat> {
    if '0' <= c <= '9' then Some((c - '0') as nat)
    else if 'a' <= c <= 'f' then Some((c - 'a') as nat + 10)
    else None
  }

  /** `json.dumps` without `ensure_ascii`: quotes, backslashes and control characters only. */
  function EscapeChar(c: char): string {
    if c == '"' then "\\\""
    else if c == '\\' then "\\\\"
    else if c == '\n' then "\\n"
    else if c == '\r' then "\\r"
    else if c == '\t' then "\\t"
    else if c == 8 as char then "\\b"
    else if c == 12 as char then "\\f"
    else if c < 32 as char then ['\\', 'u', '0', '0', HexDigit(c as int / 16), HexDigit(c as int % 16)]
    else [c]
  }

  function Escape(s: string): string {
    if s == "" then "" else EscapeChar(s[0]) + Escape(s[1..])
  }

  /** One possibly escaped character, with what follows it. */
  function UnescapeChar(s: string): Option<(char, string)> {
    if s == "" || s[0] == '"' || s[0] < 32 as char then None
    else if s[0] != '\\' then Some((s[0], s[1..]))
    else if |s| < 2 then None
    else
      match s[1]
      case '"' => Some(('"', s[2..]))
      case '\\' => Some(('\\', s[2..]))
      case '/' => Some(('/', s[2..]))
      case 'n' => Some(('\n', s[2..]))
      case 'r' => Some(('\r', s[2..]))
      case 't' => Some(('\t', s[2..]))
      case 'b' => Some((8 as char, s[2..]))
      case 'f' => Some((12 as char, s[2..]))
      case 'u' =>
        if |s| < 6 || s[2] != '0' || s[3] != '0' || HexValue(s[4]).None? || HexValue(s[5]).None? then None
        else Some(((HexValue(s[4]).value * 16 + HexValue(s[5]).value) as char, s[6..]))
      case _ => None
  }

  /** A string up to its closing quote, with what follows. */
  function Unescape(s: string): Option<(string, string)>
    decreases |s|
  {
    if s != "" && s[0] == '"' then Some(("", s[1..]))
    else
      match UnescapeChar(s)
      case None => None
      case Some((c, rest)) =>
        if |rest| >= |s| then None
        else
          match Unescape(rest)
          case None => None
          case Some((text, after)) => Some(([c] + text, after))
  }

  lemma UnescapeEscapedChar(c: char, rest: string)
    ensures EscapeChar(c) != "" && EscapeChar(c)[0] != '"'
    ensures UnescapeChar(EscapeChar(c) + rest) == Some((c, rest))
    ensures '\n' !in EscapeChar(c) && '\r' !in EscapeChar(c)
  {
    var e := EscapeChar(c);
    var s := e + rest;
    assert s[|e|..] == rest;
    if c < 32 as char && |e| == 6 {
      assert (c as int / 16) * 16 + c as int % 16 == c as int;
    }
  }

  // ---- What an escape means ----------------------------------------------------------------

  /** The escapes of two characters: the second one, and what the two stand for. */
  const SHORT := {('"', '"'), ('\\', '\\'), ('/', '/'), ('n', '\n'), ('r', '\r'), ('t', '\t'), ('b', 8 as char), ('f', 12 as char)}

  /** A character as it is, if it may stand for itself; a short escape; or four hexadecimal digits, the
      first two being zero. */
  ghost predicate Spells(piece: string, c: char) {
    || (piece == [c] && c != '"' && c != '\\' && 32 <= c as int)
    || (|piece| == 2 && piece[0] == '\\' && (piece[1], c) in SHORT)
    || (|piece| == 6 && piece[..4] == "\\u00"
        && exists h, l :: 0 <= h < 16 && 0 <= l < 16 && piece[4] == HexDigit(h) && piece[5] == HexDigit(l) && c as int == 16 * h + l)
  }

  lemma HexDigits(c: char)
    ensures forall n :: 0 <= n < 16 ==> (HexValue(c) == Some(n) <==> c == HexDigit(n))
    ensures HexValue(c).Some? ==> HexValue(c).value < 16
  {
  }

  /** Exactly what is read as which character. */
  lemma UnescapedExactly(s: string, c: char, rest: string)
    ensures UnescapeChar(s) == Some((c, rest)) <==> exists piece :: Spells(piece, c) && s == piece + rest
  {
    if UnescapeChar(s) == Some((c, rest)) {
      var piece := s[..|s| - |rest|];
      assert s == piece + rest;
      if |piece| == 6 {
        HexDigits(s[4]);
        HexDigits(s[5]);
        assert s[..4] == "\\u00";
      }
      assert Spells(piece, c);
    }
    if exists piece :: Spells(piece, c) && s == piece + rest {
      var piece :| Spells(piece, c) && s == piece + rest;
      SpelledIsRead(piece, c, rest);
    }
  }

  lemma SpelledIsRead(piece: string, c: char, rest: string)
    requires Spells(piece, c)
    ensures UnescapeChar(piece + rest) == Some((c, rest))
  {
    var s := piece + rest;
    assert s[|piece|..] == rest;
    if |piece| == 6 {
      HexDigits(piece[4]);
      HexDigits(piece[5]);
      assert piece[0] == "\\u00"[0] && piece[1] == "\\u00"[1] && piece[2] == "\\u00"[2] && piece[3] == "\\u00"[3];
    }
  }

  /** The printer never writes more than it must: no shorter text means the character. */
  lemma EscapeIsShortest(c: char)
    ensures Spells(EscapeChar(c), c) && forall piece :: Spells(piece, c) ==> |EscapeChar(c)| <= |piece|
  {
    if c < 32 as char && |EscapeChar(c)| == 6 {
      assert (c as int / 16) * 16 + c as int % 16 == c as int;
      assert EscapeChar(c)[..4] == "\\u00";
    }
  }

  function Glued(pieces: seq<string>): string {
    if pieces == [] then "" else pieces[0] + Glued(pieces[1..])
  }

  /** One piece for each character. */
  ghost predicate SpelledBy(t: string, pieces: seq<string>) {
    |pieces| == |t| && forall i :: 0 <= i < |t| ==> Spells(pieces[i], t[i])
  }

  lemma {:induction false} GluedIsRead(t: string, pieces: seq<string>, rest: string)
    requires SpelledBy(t, pieces)
    ensures Unescape(Glued(pieces) + "\"" + rest) == Some((t, rest))
    decreases |t|
  {
    hide UnescapeChar, Spells;
    if t == "" {
      assert Glued(pieces) + "\"" + rest == ['"'] + rest;
    } else {
      var tail := Glued(pieces[1..]) + "\"" + rest;
      GluedIsRead(t[1..], pieces[1..], rest);
      SpelledIsRead(pieces[0], t[0], tail);
      SpelledBegins(pieces[0], t[0]);
      assert Glued(pieces) + "\"" + rest == pieces[0] + tail;
      assert [t[0]] + t[1..] == t;
    }
  }

  lemma SpelledBegins(piece: string, c: char)
    requires Spells(piece, c)
    ensures piece != "" && piece[0] != '"'
  {
  }

  lemma {:induction false} ReadIsGlued(s: string) returns (pieces: seq<string>)
    requires Unescape(s).Some?
    ensures SpelledBy(Unescape(s).value.0, pieces) && s == Glued(pieces) + "\"" + Unescape(s).value.1
    decreases |s|
  {
    hide UnescapeChar, Spells;
    if s != "" && s[0] == '"' {
      pieces := [];
      assert s == "" + "\"" + s[1..];
    } else {
      var c, rest := UnescapeChar(s).value.0, UnescapeChar(s).value.1;
      UnescapedExactly(s, c, rest);
      var piece :| Spells(piece, c) && s == piece + rest;
      var more := ReadIsGlued(rest);
      pieces := [piece] + more;
      assert pieces[1..] == more;
      assert s == piece + (Glued(more) + "\"" + Unescape(s).value.1);
    }
  }

  /** Exactly which texts are read as which string: its characters, each spelled in some way, up to the
      closing quote. */
  lemma UnescapeExactly(s: string, t: string, rest: string)
    ensures Unescape(s) == Some((t, rest)) <==> exists pieces :: SpelledBy(t, pieces) && s == Glued(pieces) + "\"" + rest
  {
    hide Spells;
    if Unescape(s) == Some((t, rest)) {
      var pieces := ReadIsGlued(s);
    }
    if exists pieces :: SpelledBy(t, pieces) && s == Glued(pieces) + "\"" + rest {
      var pieces :| SpelledBy(t, pieces) && s == Glued(pieces) + "\"" + rest;
      GluedIsRead(t, pieces, rest);
    }
  }

  /** Reading an escaped string gives the string back, and stops at its quote. */
  lemma {:induction false} UnescapeEscaped(t: string, rest: string)
    ensures Unescape(Escape(t) + "\"" + rest) == Some((t, rest))
    decreases |t|
  {
    hide EscapeChar, UnescapeChar;
    if t == "" {
      assert Escape(t) + "\"" + rest == ['"'] + rest;
    } else {
      var tail := Escape(t[1..]) + "\"" + rest;
      UnescapeEscapedChar(t[0], tail);
      UnescapeEscaped(t[1..], rest);
      assert Escape(t) + "\"" + rest == EscapeChar(t[0]) + tail;
      assert [t[0]] + t[1..] == t;
    }
  }

  /** An escaped string never breaks the line it is printed on. */
  lemma {:induction false} EscapedIsOneLine(t: string)
    ensures '\n' !in Escape(t) && '\r' !in Escape(t)
    decreases |t|
  {
    if t != "" {
      UnescapeEscapedChar(t[0], "");
      EscapedIsOneLine(t[1..]);
    }
  }
}
