/** JSON documents as the server prints them, a parser for such texts, and that the parser reads
    back every printed document. */
module JsonValue {
  import opened Text
  import opened JsonText

  /** A value with its members in the order in which they are printed. */
  datatype Value =
    | VNull | VBool(b: bool) | VNumber(text: string) | VString(s: string)
    | VArray(items: seq<Value>) | VObject(fields: seq<Field>)

  datatype Field = Field(name: string, value: Value)

  predicate NumberChar(c: char) {
    IsDigit(c) || c == '-' || c == '+' || c == '.' || c == 'e' || c == 'E'
  }

  predicate Numeral(t: string) {
    t != "" && (IsDigit(t[0]) || t[0] == '-') && forall i :: 0 <= i < |t| ==> NumberChar(t[i])
  }

  /** Numbers are written as numbers. */
  predicate Proper(v: Value)
    decreases v
  {
    match v
    case VNumber(t) => Numeral(t)
    case VArray(items) => forall i :: 0 <= i < |items| ==> Proper(items[i])
    case VObject(fields) => forall i :: 0 <= i < |fields| ==> Proper(fields[i].value)
    case _ => true
  }

  predicate Digits(t: string) {
    t != "" && forall i :: 0 <= i < |t| ==> '0' <= t[i] <= '9'
  }

  /** Whatever is printed for a number is such a numeral: an integer, with a fraction or not, with an
      exponent or not (section 6 of RFC 8259). */
  lemma PrintedNumbers(minus: bool, whole: string, fraction: Option<string>, exponent: Option<(string, string)>)
    requires Digits(whole) && (fraction.Some? ==> Digits(fraction.value))
    requires exponent.Some? ==> exponent.value.0 in {"e", "e+", "e-", "E", "E+", "E-"} && Digits(exponent.value.1)
    ensures Numeral((if minus then "-" else "") + whole + (if fraction.Some? then "." + fraction.value else "")
                    + (if exponent.Some? then exponent.value.0 + exponent.value.1 else ""))
  {
  }

  // ---- Printing ----------------------------------------------------------------------------

  function Quoted(s: string): string {
    "\"" + Escape(s) + "\""
  }

  /** `json.dumps(value, ensure_ascii=False)`. */
  function Dumps(v: Value): string
    decreases v, 0
  {
    match v
    case VNull => "null"
    case VBool(b) => if b then "true" else "false"
    case VNumber(t) => t
    case VString(s) => Quoted(s)
    case VArray(items) => "[" + DumpsItems(items) + "]"
    case VObject(fields) => "{" + DumpsFields(fields) + "}"
  }

  function DumpsItems(items: seq<Value>): string
    decreases items, 1
  {
    if items == [] then ""
    else if |items| == 1 then Dumps(items[0])
    else Dumps(items[0]) + ", " + DumpsItems(items[1..])
  }

  function DumpsFields(fields: seq<Field>): string
    decreases fields, 1
  {
    if fields == [] then ""
    else
      var f := fields[0];
      var text := Quoted(f.name) + ": " + Dumps(f.value);
      if |fields| == 1 then text else text + ", " + DumpsFields(fields[1..])
  }

  /** What the value means: of members with one name the last counts. */
  function ToJson(v: Value): Json
    decreases v, 0
  {
    match v
    case VNull => JNull
    case VBool(b) => JBool(b)
    case VNumber(t) => JNumber(t)
    case VString(s) => JString(s)
    case VArray(items) => JArray(ToItems(items))
    case VObject(fields) => JObject(ToFields(fields))
  }

  function ToItems(items: seq<Value>): (r: seq<Json>)
    ensures |r| == |items| && forall i :: 0 <= i < |r| ==> r[i] == ToJson(items[i])
    decreases items, 1
  {
    if items == [] then [] else [ToJson(items[0])] + ToItems(items[1..])
  }

  function ToFields(fields: seq<Field>): map<string, Json>
    decreases fields, 1
  {
    if fields == [] then map[]
    else
      var last := fields[|fields| - 1];
      ToFields(fields[..|fields| - 1])[last.name := ToJson(last.value)]
  }

  /** The `i`-th member is the last of its name. */
  ghost predicate LastOfName(fields: seq<Field>, i: nat, name: string) {
    i < |fields| && fields[i].name == name && forall j :: i < j < |fields| ==> fields[j].name != name
  }

  ghost predicate HasName(fields: seq<Field>, name: string) {
    exists i :: 0 <= i < |fields| && fields[i].name == name
  }

  lemma NameOneMore(fields: seq<Field>, f: Field, name: string)
    ensures HasName(fields + [f], name) <==> HasName(fields, name) || f.name == name
    ensures forall i :: LastOfName(fields + [f], i, name) <==> if f.name == name then i == |fields| else LastOfName(fields, i, name)
  {
    var more := fields + [f];
    assert more[|fields|] == f && forall i :: 0 <= i < |fields| ==> more[i] == fields[i];
    if HasName(fields, name) {
      var i :| 0 <= i < |fields| && fields[i].name == name;
      assert more[i].name == name;
    }
  }

  lemma {:induction false} LastCounts(fields: seq<Field>, name: string)
    ensures name in ToFields(fields) <==> HasName(fields, name)
    ensures forall i: nat :: LastOfName(fields, i, name) ==> name in ToFields(fields) && ToFields(fields)[name] == ToJson(fields[i].value)
    decreases |fields|
  {
    hide ToJson, HasName, LastOfName;
    if fields == [] {
      NoNames(name);
    } else {
      var n := |fields| - 1;
      LastCounts(fields[..n], name);
      NameOneMore(fields[..n], fields[n], name);
      assert fields == fields[..n] + [fields[n]];
      forall i: nat | LastOfName(fields, i, name)
        ensures i < |fields| && name in ToFields(fields) && ToFields(fields)[name] == ToJson(fields[i].value)
      {
        LastWithin(fields, i, name);
        if fields[n].name != name {
          LastWithin(fields[..n], i, name);
        }
      }
    }
  }

  lemma NoNames(name: string)
    ensures !HasName([], name) && forall i :: !LastOfName([], i, name)
  {
  }

  lemma LastWithin(fields: seq<Field>, i: nat, name: string)
    requires LastOfName(fields, i, name)
    ensures i < |fields| && fields[i].name == name
  {
  }

  /** A text means its characters, a number its numeral, a list its items in their order, an object its
      members, of those with one name the last. */
  lemma WhatAValueMeans(v: Value)
    ensures forall s :: v == VString(s) ==> ToJson(v) == JString(s)
    ensures forall s :: v == VNumber(s) ==> ToJson(v) == JNumber(s)
    ensures v.VArray? ==> ToJson(v).JArray? && |ToJson(v).items| == |v.items| && forall i :: 0 <= i < |v.items| ==> ToJson(v).items[i] == ToJson(v.items[i])
    ensures v.VObject? ==> ToJson(v).JObject? && forall name ::
              && (name in ToJson(v).fields <==> HasName(v.fields, name))
              && forall i: nat :: LastOfName(v.fields, i, name) ==> name in ToJson(v).fields && ToJson(v).fields[name] == ToJson(v.fields[i].value)
  {
    hide ToFields, HasName;
    if v.VObject? {
      forall name
        ensures name in ToFields(v.fields) <==> HasName(v.fields, name)
        ensures forall i: nat :: LastOfName(v.fields, i, name) ==> name in ToFields(v.fields) && ToFields(v.fields)[name] == ToJson(v.fields[i].value)
      {
        LastCounts(v.fields, name);
      }
    }
  }

  // ---- Parsing -----------------------------------------------------------------------------

  function NumberLength(s: string): (n: nat)
    ensures n <= |s|
  {
    if s != "" && NumberChar(s[0]) then 1 + NumberLength(s[1..]) else 0
  }

  predicate StartsWith(s: string, prefix: string) {
    |prefix| <= |s| && s[..|prefix|] == prefix
  }

  /** A value at the head of a text, with what follows it. */
  function ParseValue(s: string): Option<(Value, string)>
    decreases |s|, 2
  {
    if s == "" then None
    else if s[0] == '"' then
      (match Unescape(s[1..])
       case Some((t, rest)) => Some((VString(t), rest))
       case None => None)
    else if s[0] == '[' then
      if |s| > 1 && s[1] == ']' then Some((VArray([]), s[2..]))
      else
        (match ParseItems(s[1..])
         case Some((items, rest)) => Some((VArray(items), rest))
         case None => None)
    else if s[0] == '{' then
      if |s| > 1 && s[1] == '}' then Some((VObject([]), s[2..]))
      else
        (match ParseFields(s[1..])
         case Some((fields, rest)) => Some((VObject(fields), rest))
         case None => None)
    else if IsDigit(s[0]) || s[0] == '-' then
      var n := NumberLength(s);
      Some((VNumber(s[..n]), s[n..]))
    else if StartsWith(s, "null") then Some((VNull, s[4..]))
    else if StartsWith(s, "true") then Some((VBool(true), s[4..]))
    else if StartsWith(s, "false") then Some((VBool(false), s[5..]))
    else None
  }

  /** Values up to the closing bracket. */
  function ParseItems(s: string): Option<(seq<Value>, string)>
    decreases |s|, 3
  {
    match ParseValue(s)
    case None => None
    case Some((v, rest)) =>
      if |rest| >= |s| then None
      else if StartsWith(rest, "]") then Some(([v], rest[1..]))
      else if StartsWith(rest, ", ") then
        (match ParseItems(rest[2..])
         case Some((more, after)) => Some(([v] + more, after))
         case None => None)
      else None
  }

  /** Members up to the closing brace. */
  function ParseFields(s: string): Option<(seq<Field>, string)>
    decreases |s|, 3
  {
    if s == "" || s[0] != '"' then None
    else
      match Unescape(s[1..])
      case None => None
      case Some((name, colon)) =>
        if |colon| >= |s| || !StartsWith(colon, ": ") then None
        else
          match ParseValue(colon[2..])
          case None => None
          case Some((v, rest)) =>
            if |rest| >= |s| then None
            else if StartsWith(rest, "}") then Some(([Field(name, v)], rest[1..]))
            else if StartsWith(rest, ", ") then
              (match ParseFields(rest[2..])
               case Some((more, after)) => Some(([Field(name, v)] + more, after))
               case None => None)
            else None
  }

  /** A whole text that is one document. */
  function Parse(s: string): Option<Value> {
    match ParseValue(s)
    case Some((v, "")) => Some(v)
    case _ => None
  }

  // ---- Round trip --------------------------------------------------------------------------------

  /** What follows a value never continues a number. */
  predicate Delimited(rest: string) {
    rest == "" || !NumberChar(rest[0])
  }

  lemma {:induction false} NumberEnds(t: string, rest: string)
    requires (forall i :: 0 <= i < |t| ==> NumberChar(t[i])) && Delimited(rest)
    ensures NumberLength(t + rest) == |t|
  {
    if t == "" {
      assert t + rest == rest;
    } else {
      NumberEnds(t[1..], rest);
      assert (t + rest)[1..] == t[1..] + rest;
    }
  }

  lemma ReadQuoted(s: string, rest: string)
    ensures var text := Quoted(s) + rest;
            text != "" && text[0] == '"' && Unescape(text[1..]) == Some((s, rest))
  {
    assert (Quoted(s) + rest)[1..] == Escape(s) + "\"" + rest;
    UnescapeEscaped(s, rest);
  }

  lemma NumberParses(t: string, rest: string)
    requires Numeral(t) && Delimited(rest)
    ensures ParseValue(t + rest) == Some((VNumber(t), rest))
  {
    NumberEnds(t, rest);
    assert (t + rest)[0] == t[0] && (t + rest)[..|t|] == t && (t + rest)[|t|..] == rest;
  }

  lemma WordParses(v: Value, rest: string)
    requires v.VNull? || v.VBool?
    ensures ParseValue(Dumps(v) + rest) == Some((v, rest))
  {
    var s := Dumps(v) + rest;
    assert s[..|Dumps(v)|] == Dumps(v) && s[|Dumps(v)|..] == rest;
    assert "null"[0] == 'n' && "true"[0] == 't' && "false"[0] == 'f';
    assert s[0] == Dumps(v)[0];
    assert v.VBool? ==> s[..4][0] != "null"[0];
    assert v == VBool(false) ==> s[..4][0] != "true"[0];
  }

  /** A value's text begins with no closing bracket, so an empty list cannot be mistaken. */
  lemma FirstChar(v: Value)
    requires Proper(v)
    ensures Dumps(v) != "" && Dumps(v)[0] != ']' && Dumps(v)[0] != '}' && Dumps(v)[0] != ','
  {
  }

  /** Reading a printed value gives the value back, and stops where it ends. */
  lemma {:induction false} ReadValue(v: Value, rest: string)
    requires Proper(v) && Delimited(rest)
    ensures ParseValue(Dumps(v) + rest) == Some((v, rest))
    decreases v, 0
  {
    match v
    case VNumber(t) => NumberParses(t, rest);
    case VString(s) => ReadQuoted(s, rest);
    case VArray(items) => ReadArray(items, rest);
    case VObject(fields) => ReadObject(fields, rest);
    case _ => WordParses(v, rest);
  }

  lemma {:induction false} ReadArray(items: seq<Value>, rest: string)
    requires forall i :: 0 <= i < |items| ==> Proper(items[i])
    ensures ParseValue("[" + DumpsItems(items) + "]" + rest) == Some((VArray(items), rest))
    decreases items, 2
  {
    hide ParseItems, DumpsItems, Dumps;
    var s := "[" + DumpsItems(items) + "]" + rest;
    if items == [] {
      NoItems();
      assert s == "[]" + rest && s[2..] == rest;
    } else {
      ReadItems(items, rest);
      FirstOfItems(items);
      assert s[1..] == DumpsItems(items) + "]" + rest;
      assert s[1] == DumpsItems(items)[0];
    }
  }

  lemma NoItems()
    ensures DumpsItems([]) == "" && DumpsFields([]) == ""
  {
  }

  lemma FirstOfItems(items: seq<Value>)
    requires items != [] && Proper(items[0])
    ensures DumpsItems(items) != "" && DumpsItems(items)[0] != ']'
  {
    FirstChar(items[0]);
  }

  /** After a value the list ends or goes on. */
  lemma ItemsStep(s: string, v: Value, tail: string)
    requires ParseValue(s) == Some((v, tail)) && |tail| < |s|
    ensures tail != "" && tail[0] == ']' ==> ParseItems(s) == Some(([v], tail[1..]))
    ensures |tail| > 1 && tail[..2] == ", " && ParseItems(tail[2..]).Some? ==>
              ParseItems(s) == Some(([v] + ParseItems(tail[2..]).value.0, ParseItems(tail[2..]).value.1))
  {
    hide ParseValue;
    assert |tail| > 1 && tail[..2] == ", " ==> tail[0] == tail[..2][0] && tail[0] != ']';
  }

  lemma {:induction false} ReadItems(items: seq<Value>, rest: string)
    requires items != [] && forall i :: 0 <= i < |items| ==> Proper(items[i])
    ensures ParseItems(DumpsItems(items) + "]" + rest) == Some((items, rest))
    decreases items, 1
  {
    hide ParseValue, ParseItems, Dumps, Proper;
    var s := DumpsItems(items) + "]" + rest;
    FirstChar(items[0]);
    if |items| == 1 {
      var after := "]" + rest;
      ReadValue(items[0], after);
      assert s == Dumps(items[0]) + after && after[1..] == rest;
      ItemsStep(s, items[0], after);
      assert items == [items[0]];
    } else {
      var more := DumpsItems(items[1..]) + "]" + rest;
      var after := ", " + more;
      ReadValue(items[0], after);
      ReadItems(items[1..], rest);
      assert s == Dumps(items[0]) + after;
      assert after[..2] == ", " && after[2..] == more;
      ItemsStep(s, items[0], after);
      assert items == [items[0]] + items[1..];
    }
  }

  lemma {:induction false} ReadObject(fields: seq<Field>, rest: string)
    requires forall i :: 0 <= i < |fields| ==> Proper(fields[i].value)
    ensures ParseValue("{" + DumpsFields(fields) + "}" + rest) == Some((VObject(fields), rest))
    decreases fields, 2
  {
    hide ParseFields, DumpsFields, Dumps;
    var s := "{" + DumpsFields(fields) + "}" + rest;
    if fields == [] {
      NoItems();
      assert s == "{}" + rest && s[2..] == rest;
    } else {
      ReadFields(fields, rest);
      FirstOfFields(fields);
      assert s[1..] == DumpsFields(fields) + "}" + rest;
      assert s[1] == DumpsFields(fields)[0];
    }
  }

  lemma FirstOfFields(fields: seq<Field>)
    requires fields != []
    ensures DumpsFields(fields) != "" && DumpsFields(fields)[0] == '"'
  {
  }

  /** One member, by its pieces. */
  lemma MemberParsed(s: string, name: string, colon: string, v: Value, after: string)
    requires s != "" && s[0] == '"' && Unescape(s[1..]) == Some((name, colon)) && |colon| < |s| && StartsWith(colon, ": ")
    requires ParseValue(colon[2..]) == Some((v, after)) && |after| < |s|
    ensures StartsWith(after, "}") ==> ParseFields(s) == Some(([Field(name, v)], after[1..]))
    ensures !StartsWith(after, "}") && StartsWith(after, ", ") ==>
              match ParseFields(after[2..])
              case Some((more, rest)) => ParseFields(s) == Some(([Field(name, v)] + more, rest))
              case None => ParseFields(s) == None
  {
    hide Unescape, ParseValue, StartsWith;
  }

  lemma ReadMember(f: Field, after: string)
    requires ParseValue(Dumps(f.value) + after) == Some((f.value, after))
    ensures var s := Quoted(f.name) + (": " + (Dumps(f.value) + after));
            && (StartsWith(after, "}") ==> ParseFields(s) == Some(([f], after[1..])))
            && (!StartsWith(after, "}") && StartsWith(after, ", ") ==>
                  match ParseFields(after[2..])
                  case Some((more, rest)) => ParseFields(s) == Some(([f] + more, rest))
                  case None => true)
  {
    hide ParseValue, Dumps, Unescape, Quoted, ParseFields;
    var colon := ": " + (Dumps(f.value) + after);
    ReadQuoted(f.name, colon);
    assert colon[..2] == ": " && colon[2..] == Dumps(f.value) + after;
    var s := Quoted(f.name) + colon;
    assert |colon| < |s| by {
      assert |Quoted(f.name)| > 0 by {
        QuotedIsLong(f.name);
      }
    }
    MemberParsed(s, f.name, colon, f.value, after);
    assert Field(f.name, f.value) == f;
  }

  lemma QuotedIsLong(s: string)
    ensures |Quoted(s)| >= 2
  {
  }

  /** What follows the first member. */
  function AfterFirst(fields: seq<Field>, rest: string): string
    requires fields != []
  {
    if |fields| == 1 then "}" + rest else ", " + (DumpsFields(fields[1..]) + "}" + rest)
  }

  lemma FieldsText(fields: seq<Field>, rest: string)
    requires fields != []
    ensures DumpsFields(fields) + "}" + rest
         == Quoted(fields[0].name) + (": " + (Dumps(fields[0].value) + AfterFirst(fields, rest)))
  {
    hide Quoted, Dumps;
    Regrouped(Quoted(fields[0].name), ": ", Dumps(fields[0].value), ", ", DumpsFields(fields[1..]), "}", rest);
  }

  lemma Regrouped(a: string, b: string, c: string, d: string, e: string, f: string, g: string)
    ensures (a + b + c) + f + g == a + (b + (c + (f + g)))
    ensures (a + b + c + d + e) + f + g == a + (b + (c + (d + (e + f + g))))
  {
  }

  lemma {:induction false} ReadFields(fields: seq<Field>, rest: string)
    requires fields != [] && forall i :: 0 <= i < |fields| ==> Proper(fields[i].value)
    ensures ParseFields(DumpsFields(fields) + "}" + rest) == Some((fields, rest))
    decreases fields, 1
  {
    hide ParseValue, Dumps, Proper, Quoted, ParseFields, DumpsFields;
    var f := fields[0];
    var after := AfterFirst(fields, rest);
    ReadValue(f.value, after);
    ReadMember(f, after);
    FieldsText(fields, rest);
    if |fields| == 1 {
      assert after[..1] == "}" && after[1..] == rest;
      assert fields == [f];
    } else {
      ReadFields(fields[1..], rest);
      assert after[..2] == ", " && after[2..] == DumpsFields(fields[1..]) + "}" + rest;
      assert after[0] == ',';
      assert fields == [f] + fields[1..];
    }
  }

  /** Parsing inverts printing, for every document. */
  lemma ParseDumps(v: Value)
    requires Proper(v)
    ensures Parse(Dumps(v)) == Some(v)
  {
    ReadValue(v, "");
    assert Dumps(v) + "" == Dumps(v);
  }

  // ---- One line --------------------------------------------------------------------------------

  predicate NoBreak(s: string) {
    '\n' !in s && '\r' !in s
  }

  /** A printed document never breaks the line it is printed on. */
  lemma {:induction false} DumpsOnOneLine(v: Value)
    requires Proper(v)
    ensures NoBreak(Dumps(v)) && Dumps(v) != ""
    decreases v, 0
  {
    match v
    case VString(s) => EscapedIsOneLine(s);
    case VArray(items) => ItemsOnOneLine(items);
    case VObject(fields) => FieldsOnOneLine(fields);
    case _ =>
  }

  lemma {:induction false} ItemsOnOneLine(items: seq<Value>)
    requires forall i :: 0 <= i < |items| ==> Proper(items[i])
    ensures NoBreak(DumpsItems(items))
    decreases items, 1
  {
    hide Dumps, Proper;
    if items != [] {
      DumpsOnOneLine(items[0]);
      ItemsOnOneLine(items[1..]);
    }
  }

  lemma {:induction false} FieldsOnOneLine(fields: seq<Field>)
    requires forall i :: 0 <= i < |fields| ==> Proper(fields[i].value)
    ensures NoBreak(DumpsFields(fields))
    decreases fields, 1
  {
    hide Dumps, Proper, Escape;
    if fields != [] {
      EscapedIsOneLine(fields[0].name);
      DumpsOnOneLine(fields[0].value);
      FieldsOnOneLine(fields[1..]);
    }
  }

  // ---- Members ---------------------------------------------------------------------------------

  predicate Unnamed(fields: seq<Field>, name: string) {
    forall i :: 0 <= i < |fields| ==> fields[i].name != name
  }

  /** A member whose name does not occur again. */
  lemma {:induction false} MemberOf(fields: seq<Field>, i: nat)
    requires i < |fields| && Unnamed(fields[i + 1..], fields[i].name)
    ensures fields[i].name in ToFields(fields) && ToFields(fields)[fields[i].name] == ToJson(fields[i].value)
    decreases |fields|
  {
    var n := |fields| - 1;
    if i < n {
      assert fields[i + 1..][n - i - 1] == fields[n];
      assert fields[..n][i + 1..] == fields[i + 1..][..n - i - 1];
      MemberOf(fields[..n], i);
    }
  }
}
