/** Text assembled from extracted blocks: offsets, page markers, the validator's checks, and
    which chunks a block is attributed to. */
module Layout {
  import opened Text

  /** A block before its offsets are assigned. */
  datatype Block = Block(pages: seq<nat>, text: string)

  datatype Range = Range(start: nat, end: nat)

  function Marker(page: nat): string {
    "[PAGE " + Decimal(page) + "]\n"
  }

  function PageOf(b: Block): Option<nat> {
    if b.pages == [] then None else Some(b.pages[0])
  }

  function PreviousPage(blocks: seq<Block>, i: nat): Option<nat>
    requires i <= |blocks|
  {
    if i == 0 then None else PageOf(blocks[i - 1])
  }

  /** A marker goes before a block whose page is new; in baseline mode before every block with
      a page. */
  predicate Marked(blocks: seq<Block>, baseline: bool, i: nat)
    requires i < |blocks|
  {
    PageOf(blocks[i]).Some? && (baseline || PageOf(blocks[i]) != PreviousPage(blocks, i))
  }

  function Prefix(blocks: seq<Block>, baseline: bool, i: nat): string
    requires i < |blocks|
  {
    (if i == 0 then "" else "\n\n") + (if Marked(blocks, baseline, i) then Marker(blocks[i].pages[0]) else "")
  }

  /** The text of the first `n` blocks. */
  function Assembled(blocks: seq<Block>, baseline: bool, n: nat): string
    requires n <= |blocks|
  {
    if n == 0 then "" else Assembled(blocks, baseline, n - 1) + Prefix(blocks, baseline, n - 1) + blocks[n - 1].text
  }

  function Place(blocks: seq<Block>, baseline: bool, i: nat): Range
    requires i < |blocks|
  {
    var start := |Assembled(blocks, baseline, i)| + |Prefix(blocks, baseline, i)|;
    Range(start, start + |blocks[i].text|)
  }

  function Content(blocks: seq<Block>, baseline: bool): string {
    Assembled(blocks, baseline, |blocks|)
  }

  // ---- Offsets and the validator -----------------------------------------------------------

  /** The offset checks of `ExtractionResult.validate`. */
  predicate OffsetsValid(blocks: seq<Block>, ranges: seq<Range>, text: string) {
    && |ranges| == |blocks|
    && forall i :: 0 <= i < |blocks| ==>
         && (if i == 0 then 0 else ranges[i - 1].end) <= ranges[i].start <= ranges[i].end <= |text|
         && text[ranges[i].start..ranges[i].end] == blocks[i].text
  }

  lemma {:induction false} AssembledGrows(blocks: seq<Block>, baseline: bool, m: nat, n: nat)
    requires m <= n <= |blocks|
    ensures Assembled(blocks, baseline, m) <= Assembled(blocks, baseline, n)
    ensures m < n && m > 0 ==> |Assembled(blocks, baseline, m)| < |Assembled(blocks, baseline, n)|
    decreases n - m
  {
    if m < n {
      AssembledGrows(blocks, baseline, m, n - 1);
    }
  }

  lemma PlaceInText(blocks: seq<Block>, baseline: bool, i: nat)
    requires i < |blocks|
    ensures var r := Place(blocks, baseline, i);
            && r.end == |Assembled(blocks, baseline, i + 1)| <= |Content(blocks, baseline)|
            && Content(blocks, baseline)[r.start..r.end] == blocks[i].text
            && Content(blocks, baseline)[|Assembled(blocks, baseline, i)|..r.start] == Prefix(blocks, baseline, i)
  {
    AssembledGrows(blocks, baseline, i + 1, |blocks|);
    var whole := Content(blocks, baseline);
    var part := Assembled(blocks, baseline, i + 1);
    var r := Place(blocks, baseline, i);
    assert whole[..|part|] == part;
    assert part[r.start..r.end] == blocks[i].text;
    assert whole[r.start..r.end] == part[r.start..r.end];
    assert whole[|Assembled(blocks, baseline, i)|..r.start] == part[|Assembled(blocks, baseline, i)|..r.start];
  }

  function Places(blocks: seq<Block>, baseline: bool, n: nat): (r: seq<Range>)
    requires n <= |blocks|
    ensures |r| == n && forall i :: 0 <= i < n ==> r[i] == Place(blocks, baseline, i)
  {
    if n == 0 then [] else Places(blocks, baseline, n - 1) + [Place(blocks, baseline, n - 1)]
  }

  lemma PlaceShape(blocks: seq<Block>, baseline: bool, i: nat)
    requires i < |blocks|
    ensures |Assembled(blocks, baseline, i)| <= Place(blocks, baseline, i).start <= Place(blocks, baseline, i).end
  {
  }

  /** Whatever the blocks and the mode, assembly passes the validator. */
  lemma AssemblyIsValid(blocks: seq<Block>, baseline: bool)
    ensures OffsetsValid(blocks, Places(blocks, baseline, |blocks|), Content(blocks, baseline))
  {
    hide Assembled, Content, Prefix, Place;
    var ranges, text := Places(blocks, baseline, |blocks|), Content(blocks, baseline);
    forall i | 0 <= i < |blocks|
      ensures (if i == 0 then 0 else ranges[i - 1].end) <= ranges[i].start <= ranges[i].end <= |text|
      ensures text[ranges[i].start..ranges[i].end] == blocks[i].text
    {
      PlaceShape(blocks, baseline, i);
      PlaceInText(blocks, baseline, i);
      if i > 0 {
        PlaceInText(blocks, baseline, i - 1);
      }
    }
  }

  /** Gaps and block texts in turn, up to the `n`-th block. */
  function Woven(blocks: seq<Block>, gaps: seq<string>, n: nat): string
    requires n <= |blocks| && n <= |gaps|
  {
    if n == 0 then "" else Woven(blocks, gaps, n - 1) + gaps[n - 1] + blocks[n - 1].text
  }

  /** The text is the blocks in their order with these gaps before, between and after them, and each
      range is its block's place. */
  ghost predicate IsWoven(blocks: seq<Block>, ranges: seq<Range>, text: string, gaps: seq<string>) {
    && |ranges| == |blocks| && |gaps| == |blocks| + 1
    && text == Woven(blocks, gaps, |blocks|) + gaps[|blocks|]
    && forall i :: 0 <= i < |blocks| ==>
         ranges[i].start == |Woven(blocks, gaps, i)| + |gaps[i]| && ranges[i].end == ranges[i].start + |blocks[i].text|
  }

  function EndBefore(ranges: seq<Range>, i: nat): nat
    requires i <= |ranges|
  {
    if i == 0 then 0 else ranges[i - 1].end
  }

  lemma {:induction false} WovenIsPrefix(blocks: seq<Block>, gaps: seq<string>, m: nat, n: nat)
    requires m <= n <= |blocks| && n <= |gaps|
    ensures Woven(blocks, gaps, m) <= Woven(blocks, gaps, n)
    decreases n - m
  {
    if m < n {
      WovenIsPrefix(blocks, gaps, m, n - 1);
    }
  }

  /** The pieces of the text between valid ranges. */
  function GapsOf(blocks: seq<Block>, ranges: seq<Range>, text: string): (r: seq<string>)
    requires OffsetsValid(blocks, ranges, text)
    ensures |r| == |blocks| + 1
  {
    seq(|blocks|, i requires 0 <= i < |blocks| => text[EndBefore(ranges, i)..ranges[i].start]) + [text[EndBefore(ranges, |blocks|)..]]
  }

  lemma ThreePieces(text: string, a: nat, b: nat, c: nat)
    requires a <= b <= c <= |text|
    ensures text[..c] == text[..a] + text[a..b] + text[b..c]
  {
  }

  lemma {:induction false} GapsWeave(blocks: seq<Block>, ranges: seq<Range>, text: string, n: nat)
    requires OffsetsValid(blocks, ranges, text) && n <= |blocks|
    ensures Woven(blocks, GapsOf(blocks, ranges, text), n) == text[..EndBefore(ranges, n)]
  {
    if n > 0 {
      GapsWeave(blocks, ranges, text, n - 1);
      ThreePieces(text, EndBefore(ranges, n - 1), ranges[n - 1].start, ranges[n - 1].end);
    }
  }

  lemma WovenPart(blocks: seq<Block>, gaps: seq<string>, i: nat)
    requires i < |blocks| && i < |gaps|
    ensures var start := |Woven(blocks, gaps, i)| + |gaps[i]|;
            |Woven(blocks, gaps, i + 1)| == start + |blocks[i].text| && Woven(blocks, gaps, i + 1)[start..] == blocks[i].text
  {
  }

  lemma PieceOfPrefix(text: string, part: string, start: nat)
    requires part <= text && start <= |part|
    ensures text[start..|part|] == part[start..]
  {
  }

  lemma WovenAt(blocks: seq<Block>, ranges: seq<Range>, text: string, gaps: seq<string>, i: nat)
    requires IsWoven(blocks, ranges, text, gaps) && i < |blocks|
    ensures EndBefore(ranges, i) <= ranges[i].start <= ranges[i].end <= |text|
    ensures text[ranges[i].start..ranges[i].end] == blocks[i].text
  {
    hide Woven;
    WovenPart(blocks, gaps, i);
    if i > 0 {
      WovenPart(blocks, gaps, i - 1);
    }
    WovenIsPrefix(blocks, gaps, i + 1, |blocks|);
    PieceOfPrefix(text, Woven(blocks, gaps, i + 1), ranges[i].start);
  }

  lemma WovenIsValid(blocks: seq<Block>, ranges: seq<Range>, text: string, gaps: seq<string>)
    requires IsWoven(blocks, ranges, text, gaps)
    ensures OffsetsValid(blocks, ranges, text)
  {
    hide Woven, IsWoven;
    assert |ranges| == |blocks| by {
      WovenCounts(blocks, ranges, text, gaps);
    }
    forall i | 0 <= i < |blocks|
      ensures (if i == 0 then 0 else ranges[i - 1].end) <= ranges[i].start <= ranges[i].end <= |text|
      ensures text[ranges[i].start..ranges[i].end] == blocks[i].text
    {
      WovenAt(blocks, ranges, text, gaps, i);
    }
  }

  lemma WovenCounts(blocks: seq<Block>, ranges: seq<Range>, text: string, gaps: seq<string>)
    requires IsWoven(blocks, ranges, text, gaps)
    ensures |ranges| == |blocks|
  {
  }

  lemma ValidIsWoven(blocks: seq<Block>, ranges: seq<Range>, text: string)
    requires OffsetsValid(blocks, ranges, text)
    ensures IsWoven(blocks, ranges, text, GapsOf(blocks, ranges, text))
  {
    hide Woven;
    var gaps := GapsOf(blocks, ranges, text);
    forall n | 0 <= n <= |blocks| ensures Woven(blocks, gaps, n) == text[..EndBefore(ranges, n)] {
      GapsWeave(blocks, ranges, text, n);
    }
  }

  /** The validator accepts exactly the texts that are the blocks in their order with something in
      between, under the ranges at which they stand there. */
  lemma ValidMeansWoven(blocks: seq<Block>, ranges: seq<Range>, text: string)
    ensures OffsetsValid(blocks, ranges, text) <==> exists gaps :: IsWoven(blocks, ranges, text, gaps)
  {
    hide IsWoven, OffsetsValid;
    if OffsetsValid(blocks, ranges, text) {
      ValidIsWoven(blocks, ranges, text);
    }
    if exists gaps :: IsWoven(blocks, ranges, text, gaps) {
      var gaps :| IsWoven(blocks, ranges, text, gaps);
      WovenIsValid(blocks, ranges, text, gaps);
    }
  }

  /** A block as the extractor holds it: its offsets are written during assembly. */
  class PlacedBlock {
    const source: Block
    var start: nat
    var end: nat

    constructor (source: Block)
      ensures this.source == source && start == 0 && end == 0
    {
      this.source, start, end := source, 0, 0;
    }
  }

  function Sources(blocks: seq<PlacedBlock>): (r: seq<Block>)
    ensures |r| == |blocks| && forall i :: 0 <= i < |blocks| ==> r[i] == blocks[i].source
  {
    if blocks == [] then [] else [blocks[0].source] + Sources(blocks[1..])
  }

  lemma AssembleOne(sources: seq<Block>, baseline: bool, i: nat)
    requires i < |sources|
    ensures var page := PageOf(sources[i]);
            var separator := if i == 0 then "" else "\n\n";
            var marker := if page.Some? && (baseline || page != PreviousPage(sources, i)) then Marker(page.value) else "";
            var before := Assembled(sources, baseline, i);
            && Assembled(sources, baseline, i + 1) == before + (separator + marker) + sources[i].text
            && Place(sources, baseline, i) == Range(|before| + |separator + marker|, |before| + |separator + marker| + |sources[i].text|)
            && PreviousPage(sources, i + 1) == page
  {
  }

  lemma NothingAssembled(sources: seq<Block>, baseline: bool)
    ensures Assembled(sources, baseline, 0) == "" && PreviousPage(sources, 0) == None
  {
  }

  /** `assemble`: joins separators, markers and texts, and writes the offsets into the blocks. */
  method Assemble(blocks: seq<PlacedBlock>, baseline: bool) returns (text: string)
    requires forall i, j :: 0 <= i < j < |blocks| ==> blocks[i] != blocks[j]
    modifies set b | b in blocks
    ensures text == Content(Sources(blocks), baseline)
    ensures forall i :: 0 <= i < |blocks| ==>
              Range(blocks[i].start, blocks[i].end) == Place(Sources(blocks), baseline, i)
  {
    hide Assembled, Marker, Place, PreviousPage, PageOf;
    var sources := Sources(blocks);
    NothingAssembled(sources, baseline);
    text := "";
    var offset := 0;
    var previous: Option<nat> := None;
    var i := 0;
    while i < |blocks|
      invariant i <= |blocks| && text == Assembled(sources, baseline, i) && offset == |text|
      invariant previous == PreviousPage(sources, i)
      invariant forall j :: 0 <= j < i ==> Range(blocks[j].start, blocks[j].end) == Place(sources, baseline, j)
    {
      AssembleOne(sources, baseline, i);
      var b := blocks[i];
      var page := PageOf(b.source);
      var separator := if i == 0 then "" else "\n\n";
      var marker := if page.Some? && (baseline || page != previous) then Marker(page.value) else "";
      var prefix := separator + marker;
      text := text + prefix + b.source.text;
      offset := offset + |prefix|;
      b.start := offset;
      offset := offset + |b.source.text|;
      b.end := offset;
      previous := page;
      i := i + 1;
    }
  }

  // ---- Attribution to chunks -------------------------------------------------------------------

  /** `_intersects`: the block's range, the position of an empty block, or its page marker. */
  predicate Intersects(text: string, page: nat, block: Range, chunk: Range)
    requires block.start <= |text|
  {
    || (block.start < chunk.end && chunk.start < block.end)
    || (block.start == block.end && chunk.start <= block.start < chunk.end)
    || (var marker := Marker(page);
        && |marker| <= block.start && text[block.start - |marker|..block.start] == marker
        && block.start - |marker| < chunk.end && chunk.start < block.start)
  }

  /** The page's marker ends right at this place. */
  ghost predicate MarkerEndsAt(text: string, page: nat, at: nat) {
    exists before, after :: text == before + "[PAGE " + Decimal(page) + "]\n" + after && |before| + 8 + |Decimal(page)| == at
  }

  lemma MarkerIs(page: nat)
    ensures Marker(page) == "[PAGE " + Decimal(page) + "]\n" && |Marker(page)| == 8 + |Decimal(page)|
  {
  }

  lemma Regrouped(before: string, digits: string, after: string)
    ensures before + "[PAGE " + digits + "]\n" + after == before + ("[PAGE " + digits + "]\n") + after
  {
  }

  lemma MiddlePiece(a: string, b: string, c: string)
    ensures (a + b + c)[|a|..|a| + |b|] == b
  {
  }

  lemma MarkerFound(text: string, page: nat, at: nat)
    requires at <= |text|
    ensures MarkerEndsAt(text, page, at) <==> |Marker(page)| <= at && text[at - |Marker(page)|..at] == Marker(page)
  {
    hide Marker;
    var marker := Marker(page);
    MarkerIs(page);
    if MarkerEndsAt(text, page, at) {
      var before, after :| text == before + "[PAGE " + Decimal(page) + "]\n" + after && |before| + 8 + |Decimal(page)| == at;
      Regrouped(before, Decimal(page), after);
      MiddlePiece(before, marker, after);
    }
    if |marker| <= at && text[at - |marker|..at] == marker {
      var before, after := text[..at - |marker|], text[at..];
      ThreePieces(text, at - |marker|, at, |text|);
      assert text[..|text|] == text;
      Regrouped(before, Decimal(page), after);
    }
  }

  /** What a position must be for a chunk that has it to be credited with the block: one of the block,
      the very place of an empty block, or one of the page marker before it. */
  ghost predicate Belongs(text: string, page: nat, block: Range, pos: nat) {
    || block.start <= pos < block.end
    || block.start == block.end == pos
    || (MarkerEndsAt(text, page, block.start) && block.start - 8 - |Decimal(page)| <= pos < block.start)
  }

  /** A chunk is credited with a block if and only if they have a position in common; an empty chunk,
      if it lies strictly inside of the block or its marker. */
  lemma CreditedExactly(text: string, page: nat, block: Range, chunk: Range)
    requires block.start <= block.end <= |text| && chunk.start <= chunk.end
    ensures chunk.start < chunk.end ==>
              (Intersects(text, page, block, chunk) <==> exists pos :: chunk.start <= pos < chunk.end && Belongs(text, page, block, pos))
    ensures chunk.start == chunk.end ==>
              (Intersects(text, page, block, chunk) <==>
                 || block.start < chunk.start < block.end
                 || (MarkerEndsAt(text, page, block.start) && block.start - 8 - |Decimal(page)| < chunk.start < block.start))
  {
    hide MarkerEndsAt, Marker;
    MarkerFound(text, page, block.start);
    MarkerIs(page);
    if chunk.start < chunk.end && Intersects(text, page, block, chunk) {
      var m := block.start - |Marker(page)|;
      if block.start < chunk.end && chunk.start < block.end {
        assert Belongs(text, page, block, if chunk.start < block.start then block.start else chunk.start);
      } else if block.start == block.end && chunk.start <= block.start < chunk.end {
        assert Belongs(text, page, block, block.start);
      } else {
        assert Belongs(text, page, block, if chunk.start < m then m else chunk.start);
      }
    }
  }

  ghost predicate Covers(chunks: seq<Range>, n: nat) {
    && (forall c :: c in chunks ==> c.start <= c.end <= n)
    && (forall pos: nat :: pos < n ==> CoveredAt(chunks, pos))
  }

  ghost predicate CoveredAt(chunks: seq<Range>, pos: nat) {
    exists c :: c in chunks && c.start <= pos < c.end
  }

  ghost predicate Attributed(text: string, page: nat, block: Range, chunks: seq<Range>)
    requires block.start <= |text|
  {
    exists c :: c in chunks && Intersects(text, page, block, c)
  }

  /** With chunks that cover a text, a block is attributed exactly when it is not empty, not at
      the very end, or right after its own marker. */
  lemma AttributedExactly(text: string, page: nat, block: Range, chunks: seq<Range>)
    requires block.start <= block.end <= |text| && Covers(chunks, |text|)
    ensures Attributed(text, page, block, chunks) <==>
              || block.start < |text|
              || (|Marker(page)| <= block.start && text[block.start - |Marker(page)|..block.start] == Marker(page))
  {
    if block.start < |text| {
      assert CoveredAt(chunks, block.start);
      var c :| c in chunks && c.start <= block.start < c.end;
      assert Intersects(text, page, block, c);
    } else if |Marker(page)| <= block.start && text[block.start - |Marker(page)|..block.start] == Marker(page) {
      assert CoveredAt(chunks, block.start - 1);
      var c :| c in chunks && c.start <= block.start - 1 < c.end;
      assert Intersects(text, page, block, c);
    }
  }

  /** An unmarked block comes right after a separator, which no marker ends in. */
  lemma NoMarkerBefore(blocks: seq<Block>, baseline: bool, i: nat)
    requires i < |blocks| && blocks[i].pages != []
    ensures var r := Place(blocks, baseline, i);
            var marker := Marker(blocks[i].pages[0]);
            var text := Content(blocks, baseline);
            && r.start <= |text|
            && ((|marker| <= r.start && text[r.start - |marker|..r.start] == marker) <==> Marked(blocks, baseline, i))
  {
    hide Assembled, Content;
    PlaceInText(blocks, baseline, i);
    var r := Place(blocks, baseline, i);
    var text := Content(blocks, baseline);
    var before := |Assembled(blocks, baseline, i)|;
    var marker := Marker(blocks[i].pages[0]);
    assert marker[|marker| - 2] == ']';
    assert text[before..r.start] == Prefix(blocks, baseline, i);
    if Marked(blocks, baseline, i) {
      assert text[r.start - |marker|..r.start] == text[before..r.start][r.start - before - |marker|..];
      assert Prefix(blocks, baseline, i)[r.start - before - |marker|..] == marker;
    } else {
      assert text[r.start - 2] == text[before..r.start][0] == '\n';
      assert |marker| <= r.start ==> text[r.start - |marker|..r.start][|marker| - 2] == text[r.start - 2];
    }
  }

  /** For assembled documents whose blocks all have a page: the only block that no chunk is
      credited with is an empty last block on the page of the block before it, outside baseline
      mode. */
  lemma OnlyTrailingEmptyIsLost(blocks: seq<Block>, baseline: bool, chunks: seq<Range>, i: nat)
    requires i < |blocks| && (forall j :: 0 <= j < |blocks| ==> blocks[j].pages != [])
    requires Covers(chunks, |Content(blocks, baseline)|)
    ensures var r := Place(blocks, baseline, i);
            && r.start <= |Content(blocks, baseline)|
            && (Attributed(Content(blocks, baseline), blocks[i].pages[0], r, chunks) <==>
                  !(i == |blocks| - 1 && blocks[i].text == "" && !baseline && i > 0 && blocks[i].pages[0] == blocks[i - 1].pages[0]))
  {
    hide Assembled, Marker, Attributed, Covers;
    var r := Place(blocks, baseline, i);
    PlaceInText(blocks, baseline, i);
    NoMarkerBefore(blocks, baseline, i);
    AttributedExactly(Content(blocks, baseline), blocks[i].pages[0], r, chunks);
    AssembledGrows(blocks, baseline, i + 1, |blocks|);
  }

  /** The blocks one chunk is credited with, in order. */
  method Provenance(text: string, pages: seq<nat>, ranges: seq<Range>, chunk: Option<Range>) returns (ok: bool, selected: seq<nat>)
    requires |pages| == |ranges| && forall i :: 0 <= i < |ranges| ==> ranges[i].start <= |text|
    ensures ok <==> chunk.Some?
    ensures ok ==> forall i :: 0 <= i < |ranges| ==> (i in selected <==> Intersects(text, pages[i], ranges[i], chunk.value))
    ensures forall a, b :: 0 <= a < b < |selected| ==> selected[a] < selected[b]
    ensures forall a :: 0 <= a < |selected| ==> selected[a] < |ranges|
  {
    selected := [];
    if chunk.None? {
      return false, selected;
    }
    var i := 0;
    while i < |ranges|
      invariant i <= |ranges|
      invariant forall j :: 0 <= j < i ==> (j in selected <==> Intersects(text, pages[j], ranges[j], chunk.value))
      invariant forall a, b :: 0 <= a < b < |selected| ==> selected[a] < selected[b]
      invariant forall a :: 0 <= a < |selected| ==> selected[a] < i
    {
      if Intersects(text, pages[i], ranges[i], chunk.value) {
        selected := selected + [i];
      }
      i := i + 1;
    }
    ok := true;
  }
}
