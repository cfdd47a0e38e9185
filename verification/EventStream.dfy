/** Server-sent events (section 9.2 of the WHATWG HTML Standard) as this system prints and
    reads them: tokens, JSON strings, blocks, lines and fields. */
module EventStream {
  import opened Text

  // ---- Splitting on blank lines -------------------------------------------------------------

  /** The length of a match of `\r?\n\r?\n` at a position, or zero. */
  function MatchAt(s: string, i: nat): (n: nat)
    requires i <= |s|
    ensures i + n <= |s|
  {
    var j := if i < |s| && s[i] == '\r' then i + 1 else i;
    var k := if j + 1 < |s| && s[j + 1] == '\r' then j + 2 else j + 1;
    if j < |s| && s[j] == '\n' && k < |s| && s[k] == '\n' then k + 1 - i else 0
  }

  function FirstMatch(s: string, i: nat): (j: nat)
    requires i <= |s|
    ensures i <= j <= |s|
    ensures forall k :: i <= k < j ==> MatchAt(s, k) == 0
    ensures j < |s| ==> MatchAt(s, j) > 0
    decreases |s| - i
  {
    if i == |s| || MatchAt(s, i) > 0 then i else FirstMatch(s, i + 1)
  }

  /** `s.split(/\r?\n\r?\n/)`. */
  function Split(s: string): (parts: seq<string>)
    ensures parts != []
    decreases |s|
  {
    var i := FirstMatch(s, 0);
    if i == |s| then [s] else [s[..i]] + Split(s[i + MatchAt(s, i)..])
  }

  function AllButLast<T>(s: seq<T>): seq<T>
    requires s != []
  {
    s[..|s| - 1]
  }

  function Last<T>(s: seq<T>): T
    requires s != []
  {
    s[|s| - 1]
  }

  /** More text never disturbs a match that is already complete. */
  lemma MatchStays(a: string, b: string, i: nat)
    requires i <= |a| && MatchAt(a, i) > 0
    ensures MatchAt(a + b, i) == MatchAt(a, i)
  {
  }

  /** Nor does it complete an earlier one. */
  lemma NoEarlierMatch(a: string, b: string, i: nat, j: nat)
    requires j < i <= |a| && MatchAt(a, i) > 0 && MatchAt(a, j) == 0
    ensures MatchAt(a + b, j) == 0
  {
  }

  lemma FirstMatchStays(a: string, b: string)
    requires FirstMatch(a, 0) < |a|
    ensures FirstMatch(a + b, 0) == FirstMatch(a, 0) && MatchAt(a + b, FirstMatch(a, 0)) == MatchAt(a, FirstMatch(a, 0))
  {
    hide MatchAt;
    var i := FirstMatch(a, 0);
    MatchStays(a, b, i);
    forall j | 0 <= j < i ensures MatchAt(a + b, j) == 0 {
      NoEarlierMatch(a, b, i, j);
    }
  }

  /** Text that arrives later only continues the last part. */
  lemma {:induction false} SplitContinues(a: string, b: string)
    ensures Split(a + b) == AllButLast(Split(a)) + Split(Last(Split(a)) + b)
    decreases |a|
  {
    hide MatchAt;
    var i := FirstMatch(a, 0);
    if i == |a| {
      assert Split(a) == [a];
    } else {
      FirstMatchStays(a, b);
      var rest := a[i + MatchAt(a, i)..];
      SplitContinues(rest, b);
      assert (a + b)[i + MatchAt(a, i)..] == rest + b && (a + b)[..i] == a[..i];
      assert AllButLast(Split(a)) == [a[..i]] + AllButLast(Split(rest));
    }
  }

  lemma EmptySplit()
    ensures Split("") == [""]
  {
    assert FirstMatch("", 0) == 0;
  }

  function Joined(chunks: seq<string>): string {
    if chunks == [] then "" else Joined(chunks[..|chunks| - 1]) + chunks[|chunks| - 1]
  }

  /** The reader's loop over chunks: finished blocks, and the text kept back. */
  function Read(chunks: seq<string>): (seq<string>, string) {
    if chunks == [] then ([], "")
    else
      var (blocks, buffer) := Read(chunks[..|chunks| - 1]);
      var parts := Split(buffer + chunks[|chunks| - 1]);
      (blocks + AllButLast(parts), Last(parts))
  }

  /** However the text is cut, the blocks are those of the whole text, less its last part. */
  lemma {:induction false} ReadIsSplit(chunks: seq<string>)
    ensures Read(chunks) == (AllButLast(Split(Joined(chunks))), Last(Split(Joined(chunks))))
  {
    hide MatchAt, Split;
    if chunks == [] {
      EmptySplit();
    } else {
      var n := |chunks| - 1;
      var text := Joined(chunks[..n]);
      ReadIsSplit(chunks[..n]);
      SplitContinues(text, chunks[n]);
      var parts := Split(Last(Split(text)) + chunks[n]);
      assert AllButLast(AllButLast(Split(text)) + parts) == AllButLast(Split(text)) + AllButLast(parts);
    }
  }

  // ---- Lines and fields --------------------------------------------------------------------------

  function FirstOf(s: string, c: char): (i: nat)
    ensures i <= |s| && c !in s[..i] && (i < |s| ==> s[i] == c)
  {
    if s == "" || s[0] == c then 0
    else
      var n := FirstOf(s[1..], c);
      assert s[..n + 1] == [s[0]] + s[1..][..n];
      n + 1
  }

  /** `s.split(/\r?\n/)`. */
  function Lines(s: string): seq<string>
    decreases |s|
  {
    var i := FirstOf(s, '\n');
    if i == |s| then [s]
    else [if i > 0 && s[i - 1] == '\r' then s[..i - 1] else s[..i]] + Lines(s[i + 1..])
  }

  datatype Event = Event(name: string, data: string)

  datatype Fields = Fields(name: string, data: seq<string>)

  function WithLine(f: Fields, line: string): Fields {
    if line == "" || line[0] == ':' then f
    else
      var i := FirstOf(line, ':');
      var field := line[..i];
      var raw := if i == |line| then "" else line[i + 1..];
      var value := if raw != "" && raw[0] == ' ' then raw[1..] else raw;
      if field == "event" then f.(name := value)
      else if field == "data" then f.(data := f.data + [value])
      else f
  }

  function FieldsOf(lines: seq<string>): Fields {
    if lines == [] then Fields("message", []) else WithLine(FieldsOf(lines[..|lines| - 1]), lines[|lines| - 1])
  }

  function JoinLines(data: seq<string>): string {
    if data == [] then "" else if |data| == 1 then data[0] else JoinLines(data[..|data| - 1]) + "\n" + data[|data| - 1]
  }

  /** `parseEvent`: a block without data is no event. */
  function ParseEvent(block: string): Option<Event> {
    var f := FieldsOf(Lines(block));
    if f.data == [] then None else Some(Event(f.name, JoinLines(f.data)))
  }

  // ---- Printing ------------------------------------------------------------------------------------

  predicate OneLine(s: string) {
    '\n' !in s && '\r' !in s
  }

  function Block(name: string, data: string): string {
    "event: " + name + "\ndata: " + data
  }

  function Printed(e: Event): string {
    Block(e.name, e.data) + "\n\n"
  }

  function PrintedAll(events: seq<Event>): string {
    if events == [] then "" else Printed(events[0]) + PrintedAll(events[1..])
  }

  predicate Printable(e: Event) {
    OneLine(e.name) && OneLine(e.data)
  }

  lemma LinesOfBlock(e: Event)
    requires Printable(e)
    ensures Lines(Block(e.name, e.data)) == ["event" + ": " + e.name, "data" + ": " + e.data]
  {
    var first, second := "event" + ": " + e.name, "data" + ": " + e.data;
    var s := Block(e.name, e.data);
    assert s == first + ['\n'] + second;
    assert s[|first|] == '\n' && '\n' !in first && '\n' !in second && '\r' !in first;
    FirstOfIs(s, '\n', |first|);
    FirstOfIs(second, '\n', |second|);
    assert s[..|first|] == first && s[|first| + 1..] == second;
    assert Lines(second) == [second];
  }

  /** A printed event is one block, and reads back as itself. */
  lemma ParsePrinted(e: Event)
    requires Printable(e)
    ensures ParseEvent(Block(e.name, e.data)) == Some(e)
  {
    hide Lines, Block, WithLine;
    LinesOfBlock(e);
    FieldLine(Fields("message", []), "event", e.name);
    FieldLine(Fields(e.name, []), "data", e.data);
    var first, second := "event" + ": " + e.name, "data" + ": " + e.data;
    assert [first, second][..1] == [first] && [first][..0] == [];
    assert FieldsOf([first]) == WithLine(FieldsOf([]), first);
  }

  lemma FirstOfIs(s: string, c: char, i: nat)
    requires i <= |s| && c !in s[..i] && (i < |s| ==> s[i] == c)
    ensures FirstOf(s, c) == i
  {
    var j := FirstOf(s, c);
    assert forall k :: 0 <= k < i ==> s[k] in s[..i];
    assert forall k :: 0 <= k < j ==> s[k] in s[..j];
  }

  lemma FieldLine(f: Fields, field: string, value: string)
    requires field == "event" || field == "data"
    ensures var line := field + ": " + value;
            WithLine(f, line) == if field == "event" then f.(name := value) else f.(data := f.data + [value])
  {
    var line := field + ": " + value;
    assert ':' !in field;
    assert line[..|field|] == field && line[|field|] == ':';
    FirstOfIs(line, ':', |field|);
    assert line[|field| + 1..] == " " + value;
    assert (" " + value)[1..] == value;
  }

  lemma NoMatchInside(block: string, rest: string, i: nat)
    requires i < |block| && (forall j :: 0 <= j < |block| - 1 ==> !(block[j] == '\n' && block[j + 1] == '\n'))
    requires '\r' !in block && block[|block| - 1] != '\n'
    ensures MatchAt(block + rest, i) == 0
  {
    var s := block + rest;
    assert s[i] == block[i] && s[i] != '\r';
    assert i + 1 < |block| ==> s[i + 1] == block[i + 1] && s[i + 1] != '\r';
  }

  lemma SplitPrinted(e: Event, rest: string)
    requires Printable(e) && e.data != ""
    ensures Split(Printed(e) + rest) == [Block(e.name, e.data)] + Split(rest)
  {
    var block := Block(e.name, e.data);
    var s := Printed(e) + rest;
    assert s == block + ("\n\n" + rest);
    BlockShape(e);
    forall i | 0 <= i < |block| ensures MatchAt(s, i) == 0 {
      NoMatchInside(block, "\n\n" + rest, i);
    }
    assert s[|block|] == '\n' && s[|block| + 1] == '\n';
    assert MatchAt(s, |block|) == 2;
    assert FirstMatch(s, 0) == |block|;
    assert s[..|block|] == block && s[|block| + 2..] == rest;
  }

  lemma BlockShape(e: Event)
    requires Printable(e) && e.data != ""
    ensures var block := Block(e.name, e.data);
            && block != [] && '\r' !in block && block[|block| - 1] != '\n'
            && (forall j :: 0 <= j < |block| - 1 ==> !(block[j] == '\n' && block[j + 1] == '\n'))
  {
    var block := Block(e.name, e.data);
    var at := |"event: " + e.name|;
    assert block == ("event: " + e.name) + ["\n"[0]] + ("data: " + e.data);
    assert forall j :: 0 <= j < |block| && j != at ==> block[j] != '\n';
  }

  function BlocksOf(events: seq<Event>): seq<string> {
    if events == [] then [] else [Block(events[0].name, events[0].data)] + BlocksOf(events[1..])
  }

  /** A printed stream splits into one block per event and an empty remainder. */
  lemma {:induction false} SplitPrintedAll(events: seq<Event>)
    requires forall i :: 0 <= i < |events| ==> Printable(events[i]) && events[i].data != ""
    ensures Split(PrintedAll(events)) == BlocksOf(events) + [""]
    decreases |events|
  {
    hide Split, Printed, Block, Printable;
    if events == [] {
      EmptySplit();
    } else {
      SplitPrintedAll(events[1..]);
      SplitPrinted(events[0], PrintedAll(events[1..]));
    }
  }
}
