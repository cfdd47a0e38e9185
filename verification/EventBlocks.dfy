/** What splitting a stream, splitting a block and reading its fields come to, said in terms of
    separators, line ends and fields. */
module EventBlocks {
  import opened Text
  import opened EventStream

  // ---- Texts and what stands between them ------------------------------------------------------------

  /** Parts and the pieces between them, in turn. */
  function Woven(parts: seq<string>, between: seq<string>): string
    requires |parts| == |between| + 1
  {
    if between == [] then parts[0] else parts[0] + between[0] + Woven(parts[1..], between[1..])
  }

  /** Two line ends, each with or without its carriage return. */
  predicate Separator(s: string) {
    s == "\n\n" || s == "\r\n\n" || s == "\n\r\n" || s == "\r\n\r\n"
  }

  ghost predicate NothingAt(s: string, i: nat) {
    forall j :: i <= j <= |s| ==> !Separator(s[i..j])
  }

  /** No separator begins among the first `n` characters. */
  ghost predicate NoneBefore(s: string, n: nat) {
    forall i :: 0 <= i < n ==> NothingAt(s, i)
  }

  lemma SeparatorShape(t: string)
    requires Separator(t)
    ensures 2 <= |t| <= 4 && t[|t| - 1] == '\n'
    ensures t[0] == '\n' ==> (|t| == 2 || (|t| == 3 && t[1] == '\r'))
    ensures t[0] != '\n' ==> t[0] == '\r' && t[1] == '\n' && (|t| == 3 || (|t| == 4 && t[2] == '\r'))
  {
  }

  lemma MatchMeans(s: string, i: nat)
    requires i <= |s|
    ensures MatchAt(s, i) > 0 ==> Separator(s[i..i + MatchAt(s, i)])
    ensures forall j :: i <= j <= |s| && Separator(s[i..j]) ==> j == i + MatchAt(s, i)
  {
    forall j | i <= j <= |s| && Separator(s[i..j]) ensures j == i + MatchAt(s, i) {
      hide Separator;
      var t := s[i..j];
      SeparatorShape(t);
      assert forall k :: 0 <= k < |t| ==> t[k] == s[i + k];
    }
  }

  lemma NothingMeans(s: string, i: nat)
    requires i <= |s|
    ensures NothingAt(s, i) <==> MatchAt(s, i) == 0
  {
    hide MatchAt;
    MatchMeans(s, i);
    assert !Separator(s[i..i]);
  }

  lemma NoMatchMeans(s: string, n: nat)
    requires n <= |s|
    ensures NoneBefore(s, n) <==> forall i :: 0 <= i < n ==> MatchAt(s, i) == 0
  {
    hide MatchAt, NothingAt;
    forall i | 0 <= i < n ensures NothingAt(s, i) <==> MatchAt(s, i) == 0 {
      NothingMeans(s, i);
    }
  }

  /** The text is cut at separators, each at the first place where one begins. */
  ghost predicate CutAt(parts: seq<string>, between: seq<string>) {
    && |parts| == |between| + 1
    && (forall k :: 0 <= k < |between| ==> Separator(between[k]) && NoneBefore(parts[k] + between[k], |parts[k]|))
    && NoneBefore(parts[|between|], |parts[|between|]|)
  }

  lemma FirstMatchIs(part: string, sep: string, rest: string)
    requires Separator(sep) && NoneBefore(part + sep, |part|)
    ensures var s := part + sep + rest; FirstMatch(s, 0) == |part| && MatchAt(s, |part|) == |sep|
  {
    hide MatchAt, Separator, NoneBefore;
    var a := part + sep;
    assert a[|part|..|a|] == sep;
    MatchMeans(a, |part|);
    assert |sep| > 0 by {
      SeparatorIsText(sep);
    }
    NoMatchMeans(a, |part|);
    MatchStays(a, rest, |part|);
    forall j | 0 <= j < |part| ensures MatchAt(a + rest, j) == 0 {
      NoEarlierMatch(a, rest, |part|, j);
    }
    assert part + sep + rest == a + rest;
  }

  lemma SeparatorIsText(sep: string)
    requires Separator(sep)
    ensures |sep| > 0
  {
  }

  lemma NoFirstMatch(s: string)
    ensures NoneBefore(s, |s|) <==> FirstMatch(s, 0) == |s|
  {
    hide MatchAt, NoneBefore;
    NoMatchMeans(s, |s|);
  }

  lemma CutTail(parts: seq<string>, between: seq<string>)
    requires CutAt(parts, between) && between != []
    ensures CutAt(parts[1..], between[1..]) && Separator(between[0]) && NoneBefore(parts[0] + between[0], |parts[0]|)
  {
    hide Separator, NoneBefore;
  }

  lemma CutCons(part: string, sep: string, parts: seq<string>, between: seq<string>)
    requires CutAt(parts, between) && Separator(sep) && NoneBefore(part + sep, |part|)
    ensures CutAt([part] + parts, [sep] + between)
    ensures Woven([part] + parts, [sep] + between) == part + sep + Woven(parts, between)
  {
    hide Separator, NoneBefore;
    assert ([part] + parts)[1..] == parts && ([sep] + between)[1..] == between;
  }

  lemma {:induction false} CutIsSplit(parts: seq<string>, between: seq<string>)
    requires CutAt(parts, between)
    ensures Split(Woven(parts, between)) == parts
    decreases |between|
  {
    hide MatchAt, NoneBefore, Separator;
    if between == [] {
      NoFirstMatch(parts[0]);
    } else {
      var rest := Woven(parts[1..], between[1..]);
      CutTail(parts, between);
      CutIsSplit(parts[1..], between[1..]);
      FirstMatchIs(parts[0], between[0], rest);
      SeparatorIsText(between[0]);
      var s := parts[0] + between[0] + rest;
      assert s[..|parts[0]|] == parts[0] && s[|parts[0]| + |between[0]|..] == rest;
      assert parts == [parts[0]] + parts[1..];
    }
  }

  lemma NothingInPrefix(s: string, i: nat, n: nat)
    requires i <= n <= |s| && NothingAt(s, i)
    ensures NothingAt(s[..n], i)
  {
    var head := s[..n];
    forall j | i <= j <= |head| ensures !Separator(head[i..j]) {
      assert head[i..j] == s[i..j];
    }
  }

  lemma FirstCut(s: string, i: nat)
    requires i < |s| && i == FirstMatch(s, 0)
    ensures var n := MatchAt(s, i);
            && Separator(s[i..i + n]) && NoneBefore(s[..i] + s[i..i + n], |s[..i]|)
            && s == s[..i] + s[i..i + n] + s[i + n..]
  {
    hide MatchAt, Separator;
    var n := MatchAt(s, i);
    MatchMeans(s, i);
    assert s[..i] + s[i..i + n] == s[..i + n];
    NoMatchMeans(s, i);
    var head := s[..i + n];
    forall a | 0 <= a < i ensures NothingAt(head, a) {
      NothingInPrefix(s, a, i + n);
    }
  }

  lemma {:induction false} SplitIsCut(s: string) returns (between: seq<string>)
    ensures CutAt(Split(s), between) && Woven(Split(s), between) == s
    decreases |s|
  {
    hide MatchAt, NoneBefore, Separator;
    var i := FirstMatch(s, 0);
    if i == |s| {
      between := [];
      NoFirstMatch(s);
    } else {
      var rest := s[i + MatchAt(s, i)..];
      between := SplitIsCut(rest);
      FirstCut(s, i);
      CutCons(s[..i], s[i..i + MatchAt(s, i)], Split(rest), between);
      between := [s[i..i + MatchAt(s, i)]] + between;
    }
  }

  /** Splitting a text yields these parts if and only if they are what is left of it when it is cut
      at separators from left to right. */
  lemma SplitExactly(s: string, parts: seq<string>)
    ensures Split(s) == parts <==> exists between :: CutAt(parts, between) && Woven(parts, between) == s
  {
    if Split(s) == parts {
      var between := SplitIsCut(s);
    }
    if exists between :: CutAt(parts, between) && Woven(parts, between) == s {
      var between :| CutAt(parts, between) && Woven(parts, between) == s;
      CutIsSplit(parts, between);
    }
  }

  // ---- Lines -------------------------------------------------------------------------------------------

  /** Lines and their ends; a carriage return before a line feed belongs to the end. */
  ghost predicate LinesAt(lines: seq<string>, ends: seq<string>) {
    && |lines| == |ends| + 1
    && (forall k :: 0 <= k < |lines| ==> '\n' !in lines[k])
    && (forall k :: 0 <= k < |ends| ==> ends[k] == "\r\n" || (ends[k] == "\n" && (lines[k] == "" || Last(lines[k]) != '\r')))
  }

  lemma FirstLine(line: string, end: string, rest: string)
    requires '\n' !in line && (end == "\r\n" || (end == "\n" && (line == "" || Last(line) != '\r')))
    ensures Lines(line + end + rest) == [line] + Lines(rest)
  {
    hide FirstOf;
    var s := line + end + rest;
    var i := |line| + |end| - 1;
    assert s[i] == '\n' && s[i + 1..] == rest;
    assert end == "\r\n" ==> s[..i] == line + ['\r'] && s[i - 1] == '\r' && s[..i - 1] == line;
    assert end == "\n" ==> s[..i] == line && (i > 0 ==> s[i - 1] == Last(line));
    FirstOfIs(s, '\n', i);
  }

  lemma {:induction false} LinesAtAreLines(lines: seq<string>, ends: seq<string>)
    requires LinesAt(lines, ends)
    ensures Lines(Woven(lines, ends)) == lines
    decreases |ends|
  {
    if ends == [] {
      FirstOfIs(lines[0], '\n', |lines[0]|);
    } else {
      LinesAtAreLines(lines[1..], ends[1..]);
      FirstLine(lines[0], ends[0], Woven(lines[1..], ends[1..]));
      assert lines == [lines[0]] + lines[1..];
    }
  }

  lemma LinesCons(line: string, end: string, lines: seq<string>, ends: seq<string>)
    requires LinesAt(lines, ends) && '\n' !in line
    requires end == "\r\n" || (end == "\n" && (line == "" || Last(line) != '\r'))
    ensures LinesAt([line] + lines, [end] + ends)
    ensures Woven([line] + lines, [end] + ends) == line + end + Woven(lines, ends)
  {
    assert ([line] + lines)[1..] == lines && ([end] + ends)[1..] == ends;
  }

  /** The first line of a text, its end, and what follows. */
  lemma FirstEnd(s: string, i: nat) returns (line: string, end: string)
    requires i < |s| && i == FirstOf(s, '\n')
    ensures s == line + end + s[i + 1..] && Lines(s) == [line] + Lines(s[i + 1..]) && '\n' !in line
    ensures end == "\r\n" || (end == "\n" && (line == "" || Last(line) != '\r'))
  {
    if i > 0 && s[i - 1] == '\r' {
      line, end := s[..i - 1], "\r\n";
      assert s[..i] == line + ['\r'];
    } else {
      line, end := s[..i], "\n";
    }
  }

  lemma {:induction false} LinesAreAt(s: string) returns (ends: seq<string>)
    ensures LinesAt(Lines(s), ends) && Woven(Lines(s), ends) == s
    decreases |s|
  {
    hide LinesAt;
    var i := FirstOf(s, '\n');
    if i == |s| {
      ends := [];
      assert s[..i] == s;
      OnlyLine(s);
    } else {
      var line, end := FirstEnd(s, i);
      ends := LinesAreAt(s[i + 1..]);
      LinesCons(line, end, Lines(s[i + 1..]), ends);
      ends := [end] + ends;
    }
  }

  lemma OnlyLine(s: string)
    requires '\n' !in s
    ensures LinesAt([s], [])
  {
  }

  /** The lines of a block are exactly the texts between its line ends. */
  lemma LinesExactly(s: string, lines: seq<string>)
    ensures Lines(s) == lines <==> exists ends :: LinesAt(lines, ends) && Woven(lines, ends) == s
  {
    if Lines(s) == lines {
      var ends := LinesAreAt(s);
    }
    if exists ends :: LinesAt(lines, ends) && Woven(lines, ends) == s {
      var ends :| LinesAt(lines, ends) && Woven(lines, ends) == s;
      LinesAtAreLines(lines, ends);
    }
  }

  // ---- Fields ------------------------------------------------------------------------------------------

  /** A name, a colon, at most one space that does not count, and a value; or a name alone. */
  ghost predicate FieldIs(line: string, name: string, value: string) {
    && ':' !in name
    && ((line == name && value == "") || line == name + ": " + value
        || (line == name + ":" + value && (value == "" || value[0] != ' ')))
  }

  function NameOf(line: string): string {
    line[..FirstOf(line, ':')]
  }

  function ValueOf(line: string): string {
    var i := FirstOf(line, ':');
    var raw := if i == |line| then "" else line[i + 1..];
    if raw != "" && raw[0] == ' ' then raw[1..] else raw
  }

  lemma FieldOfLine(line: string)
    ensures FieldIs(line, NameOf(line), ValueOf(line))
    ensures forall name, value :: FieldIs(line, name, value) ==> name == NameOf(line) && value == ValueOf(line)
  {
    var i := FirstOf(line, ':');
    if i < |line| {
      assert line == line[..i] + ":" + line[i + 1..];
      assert line[i + 1..] != "" && line[i + 1] == ' ' ==> line == line[..i] + ": " + line[i + 2..];
    } else {
      assert line[..i] == line;
    }
    forall name, value | FieldIs(line, name, value) ensures name == NameOf(line) && value == ValueOf(line) {
      OnlyField(line, name, value);
    }
  }

  lemma OnlyField(line: string, name: string, value: string)
    requires FieldIs(line, name, value)
    ensures name == NameOf(line) && value == ValueOf(line)
  {
    assert |line| >= |name| && line[..|name|] == name;
    FirstOfIs(line, ':', |name|);
    if line == name + ": " + value {
      assert line[|name| + 1..] == " " + value && (" " + value)[1..] == value;
    } else if line == name + ":" + value {
      assert line[|name| + 1..] == value;
    }
  }

  ghost predicate HasField(line: string, name: string) {
    exists value :: FieldIs(line, name, value)
  }

  lemma LineAdds(f: Fields, line: string)
    ensures forall value :: FieldIs(line, "event", value) ==> WithLine(f, line) == f.(name := value)
    ensures forall value :: FieldIs(line, "data", value) ==> WithLine(f, line) == f.(data := f.data + [value])
    ensures !HasField(line, "event") && !HasField(line, "data") ==> WithLine(f, line) == f
    ensures !(HasField(line, "event") && HasField(line, "data"))
  {
    hide FieldIs;
    FieldOfLine(line);
    if line == "" || line[0] == ':' {
      assert FirstOf(line, ':') == 0;
    }
    assert HasField(line, NameOf(line));
  }

  /** These are the lines with data among the first `n`, in their order, with their values. */
  ghost predicate DataAt(lines: seq<string>, n: nat, at: seq<nat>, values: seq<string>) {
    && n <= |lines| && |at| == |values| && (forall i, j :: 0 <= i < j < |at| ==> at[i] < at[j])
    && (forall i :: 0 <= i < |at| ==> at[i] < n && FieldIs(lines[at[i]], "data", values[i]))
    && forall j: nat :: j in at <==> j < n && HasField(lines[j], "data")
  }

  /** The name that the last such line gives, or the one for events without a name. */
  ghost predicate NamedBy(lines: seq<string>, n: nat, name: string) {
    && n <= |lines|
    && ((name == "message" && forall m :: 0 <= m < n ==> !HasField(lines[m], "event"))
        || exists j :: 0 <= j < n && FieldIs(lines[j], "event", name) && forall m :: j < m < n ==> !HasField(lines[m], "event"))
  }

  lemma OneMoreLine(lines: seq<string>, n: nat, at: seq<nat>, f: Fields) returns (more: seq<nat>)
    requires n < |lines| && DataAt(lines, n, at, f.data) && NamedBy(lines, n, f.name)
    ensures var g := WithLine(f, lines[n]); DataAt(lines, n + 1, more, g.data) && NamedBy(lines, n + 1, g.name)
  {
    hide FieldIs, WithLine;
    LineAdds(f, lines[n]);
    more := at;
    if HasField(lines[n], "data") {
      more := at + [n];
    }
  }

  lemma {:induction false} FieldsMean(lines: seq<string>, n: nat) returns (at: seq<nat>)
    requires n <= |lines|
    ensures DataAt(lines, n, at, FieldsOf(lines[..n]).data) && NamedBy(lines, n, FieldsOf(lines[..n]).name)
  {
    hide FieldIs, WithLine, DataAt, NamedBy;
    if n == 0 {
      at := [];
      NoLinesYet(lines);
    } else {
      at := FieldsMean(lines, n - 1);
      at := OneMoreLine(lines, n - 1, at, FieldsOf(lines[..n - 1]));
      assert lines[..n][..n - 1] == lines[..n - 1];
    }
  }

  lemma NoLinesYet(lines: seq<string>)
    ensures DataAt(lines, 0, [], []) && NamedBy(lines, 0, "message")
  {
  }

  /** Values with a line feed between any two. */
  function Linked(values: seq<string>): string
    requires values != []
  {
    if |values| == 1 then values[0] else values[0] + "\n" + Linked(values[1..])
  }

  lemma {:induction false} LinkedOneMore(values: seq<string>, value: string)
    requires values != []
    ensures Linked(values + [value]) == Linked(values) + "\n" + value
    decreases |values|
  {
    if |values| > 1 {
      LinkedOneMore(values[1..], value);
      assert (values + [value])[1..] == values[1..] + [value];
    } else {
      assert (values + [value])[1..] == [value];
    }
  }

  lemma {:induction false} JoinIsLinked(values: seq<string>)
    requires values != []
    ensures JoinLines(values) == Linked(values)
  {
    if |values| > 1 {
      var n := |values| - 1;
      JoinIsLinked(values[..n]);
      LinkedOneMore(values[..n], values[n]);
      assert values == values[..n] + [values[n]];
    }
  }

  ghost predicate HasData(lines: seq<string>) {
    exists j :: 0 <= j < |lines| && HasField(lines[j], "data")
  }

  lemma DataOrNone(lines: seq<string>, at: seq<nat>, values: seq<string>)
    requires DataAt(lines, |lines|, at, values)
    ensures values != [] <==> HasData(lines)
  {
    hide FieldIs;
    if values != [] {
      assert at[0] in at;
    }
    if HasData(lines) {
      var j: nat :| j < |lines| && HasField(lines[j], "data");
      assert j in at;
    }
  }

  /** A block is an event if it has a line of data; its data are the values of those lines, linked by
      line feeds, and its name is the last one it gives. */
  lemma EventExactly(block: string)
    ensures var lines := Lines(block);
            var e := ParseEvent(block);
            && (e.Some? <==> HasData(lines))
            && (e.Some? ==> NamedBy(lines, |lines|, e.value.name)
                            && exists at, values :: DataAt(lines, |lines|, at, values) && values != [] && e.value.data == Linked(values))
  {
    hide WithLine, DataAt, NamedBy, HasData;
    var lines := Lines(block);
    var at := FieldsMean(lines, |lines|);
    assert lines[..|lines|] == lines;
    var values := FieldsOf(lines).data;
    DataOrNone(lines, at, values);
    if values != [] {
      JoinIsLinked(values);
    }
  }
}
