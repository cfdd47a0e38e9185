/** Blocks nested under pictures: the validation of parent references, and the asset mapping
    that relies on it. */
module PictureParents {
  import opened Text

  datatype Block = Block(id: string, image: bool, source: string, pages: set<nat>, start: nat, end: nat,
                         parentId: string, parentRef: string)   // "" where absent

  /** `by_id`. */
  type Index = map<string, Block>

  ghost predicate Indexed(blocks: seq<Block>, index: Index) {
    && (forall i, j :: 0 <= i < j < |blocks| ==> blocks[i].id != blocks[j].id)
    && (forall i :: 0 <= i < |blocks| ==> blocks[i].id in index && index[blocks[i].id] == blocks[i] && blocks[i].id != "")
    && (forall id :: id in index ==> exists i :: 0 <= i < |blocks| && blocks[i].id == id)
  }

  predicate Keyed(index: Index) {
    forall id :: id in index ==> index[id].id == id && id != ""
  }

  lemma IndexedIsKeyed(blocks: seq<Block>, index: Index)
    requires Indexed(blocks, index)
    ensures Keyed(index)
  {
    forall id | id in index ensures index[id].id == id && id != "" {
      var i :| 0 <= i < |blocks| && blocks[i].id == id;
    }
  }

  /** A parent id and a parent reference come together or not at all. */
  predicate Paired(b: Block) {
    b.parentRef != "" <==> b.parentId != ""
  }

  /** The parent is an image, is the one the reference names, and covers the child's pages. */
  predicate Linked(index: Index, b: Block) {
    b.parentId != "" ==>
      && b.parentId in index && index[b.parentId].image && index[b.parentId].source == b.parentRef
      && b.pages <= index[b.parentId].pages
  }

  /** The `k`-th picture above a block. */
  function Up(index: Index, id: string, k: nat): Option<string> {
    if k == 0 then (if id in index then Some(id) else None)
    else
      match Up(index, id, k - 1)
      case None => None
      case Some(x) => if x in index && index[x].parentId in index && index[x].parentId != "" then Some(index[x].parentId) else None
  }

  /** Parents have smaller rank than their children: the relation is a forest. */
  ghost predicate RankedBy(index: Index, rank: string -> nat) {
    forall id :: id in index && index[id].parentId != "" ==> rank(index[id].parentId) < rank(id)
  }

  ghost predicate Forest(index: Index) {
    exists rank :: RankedBy(index, rank)
  }

  /** What validation is for. */
  ghost predicate Sound(index: Index) {
    && (forall id :: id in index ==> Paired(index[id]) && Linked(index, index[id]))
    && Forest(index)
  }

  // ---- One guarded walk -------------------------------------------------------------------

  /** The first `k` steps of a walk: all blocks are linked and none repeats. */
  ghost predicate Walked(index: Index, id: string, node: string, seen: set<string>, k: nat) {
    && node in index && seen <= index.Keys && Up(index, id, k) == Some(node)
    && (forall j :: 0 <= j < k ==> Up(index, id, j).Some? && Linked(index, index[Up(index, id, j).value]) && index[Up(index, id, j).value].parentId != "")
    && (forall r :: r in seen ==> exists j :: 0 <= j <= k && Up(index, id, j) == Some(r))
    && (forall j :: 0 <= j <= k && Up(index, id, j).Some? ==> Up(index, id, j).value in seen)
  }

  /** A walk that ends at a block without a parent, after linked steps only. */
  ghost predicate RootAt(index: Index, id: string, k: nat) {
    && Up(index, id, k).Some? && Up(index, id, k).value in index && index[Up(index, id, k).value].parentId == ""
    && forall j :: 0 <= j < k ==> Up(index, id, j).Some? && Up(index, id, j).value in index && Linked(index, index[Up(index, id, j).value])
  }

  lemma {:induction false} UpInIndex(index: Index, id: string, k: nat)
    ensures Up(index, id, k).Some? ==> Up(index, id, k).value in index
  {
  }

  lemma {:induction false} UpShift(index: Index, id: string, k: nat)
    requires id in index && index[id].parentId in index && index[id].parentId != ""
    ensures Up(index, id, k + 1) == Up(index, index[id].parentId, k)
  {
    if k > 0 {
      UpShift(index, id, k - 1);
    } else {
      assert Up(index, id, 0) == Some(id);
    }
  }

  lemma WalkOn(index: Index, id: string, node: string, seen: set<string>, k: nat)
    requires Walked(index, id, node, seen, k) && index[node].parentId != "" && Linked(index, index[node])
    ensures Walked(index, id, index[node].parentId, seen + {index[node].parentId}, k + 1)
  {
    var parent := index[node].parentId;
    assert Up(index, id, k + 1) == Some(parent);
    hide Up, Linked;
    forall r | r in seen + {parent} ensures exists j :: 0 <= j <= k + 1 && Up(index, id, j) == Some(r) {
      if r in seen {
        var j :| 0 <= j <= k && Up(index, id, j) == Some(r);
        assert j <= k + 1;
      } else {
        assert Up(index, id, k + 1) == Some(r);
      }
    }
  }

  lemma WalkBegins(index: Index, id: string)
    requires id in index
    ensures Walked(index, id, id, {id}, 0)
  {
  }

  /** The validation loop for one block.  It ends because every step adds to `seen`. */
  method CheckBlock(index: Index, b: Block) returns (ok: bool, ghost k: nat)
    requires Keyed(index) && b.id in index && index[b.id] == b
    ensures ok ==> Paired(b) && RootAt(index, b.id, k)
    ensures !ok ==> !Sound(index)
  {
    hide Up, RankedBy, Linked, Paired;
    k := 0;
    if !Paired(b) {
      return false, k;
    }
    var seen := {b.id};
    var node := b;
    WalkBegins(index, b.id);
    while node.parentId != ""
      invariant node.id in index && index[node.id] == node && Walked(index, b.id, node.id, seen, k)
      decreases index.Keys - seen
    {
      if !Linked(index, node) {
        return false, k;
      }
      if node.parentId in seen {
        CycleIsUnsound(index, b.id, node.id, seen, k);
        return false, k;
      }
      WalkOn(index, b.id, node.id, seen, k);
      LinkedParent(index, node);
      seen := seen + {node.parentId};
      node := index[node.parentId];
      k := k + 1;
    }
    ok := true;
  }

  lemma LinkedParent(index: Index, b: Block)
    requires Linked(index, b) && b.parentId != ""
    ensures b.parentId in index
  {
  }

  /** Along a walk ranks only fall. */
  lemma {:induction false} RanksFall(index: Index, rank: string -> nat, id: string, i: nat, j: nat)
    requires RankedBy(index, rank) && i < j && Up(index, id, j).Some?
    ensures Up(index, id, i).Some? && rank(Up(index, id, j).value) < rank(Up(index, id, i).value)
    decreases j
  {
    UpInIndex(index, id, j - 1);
    if i < j - 1 {
      RanksFall(index, rank, id, i, j - 1);
    }
  }

  lemma CycleIsUnsound(index: Index, id: string, node: string, seen: set<string>, k: nat)
    requires Walked(index, id, node, seen, k) && index[node].parentId != "" && Linked(index, index[node]) && index[node].parentId in seen
    ensures !Sound(index)
  {
    var parent := index[node].parentId;
    assert Up(index, id, k + 1) == Some(parent);
    var j :| 0 <= j <= k && Up(index, id, j) == Some(parent);
    forall rank: string -> nat ensures !RankedBy(index, rank) {
      if RankedBy(index, rank) {
        RanksFall(index, rank, id, j, k + 1);
      }
    }
  }

  // ---- Validation of all blocks --------------------------------------------------------------

  lemma {:induction false} RootIsUnique(index: Index, id: string, j: nat, k: nat)
    requires RootAt(index, id, j) && RootAt(index, id, k) && j <= k
    ensures j == k
  {
    if j < k {
      RootEndsWalk(index, id, j, k);
    }
  }

  lemma {:induction false} RootEndsWalk(index: Index, id: string, j: nat, k: nat)
    requires Up(index, id, j).Some? && Up(index, id, j).value in index && index[Up(index, id, j).value].parentId == "" && j < k
    ensures Up(index, id, k).None?
    decreases k
  {
    if j < k - 1 {
      RootEndsWalk(index, id, j, k - 1);
    }
  }

  lemma RootOfParent(index: Index, id: string, k: nat)
    requires RootAt(index, id, k) && id in index && index[id].parentId != ""
    ensures k > 0 && index[id].parentId in index && Linked(index, index[id]) && RootAt(index, index[id].parentId, k - 1)
  {
    assert Up(index, id, 0) == Some(id);
    assert Linked(index, index[id]);
    forall j: nat | j < k ensures Up(index, id, j + 1) == Up(index, index[id].parentId, j) {
      UpShift(index, id, j);
    }
  }

  ghost predicate AllRooted(index: Index) {
    forall id :: id in index ==> Paired(index[id]) && exists k: nat :: RootAt(index, id, k)
  }

  ghost function Height(index: Index, id: string): nat {
    if exists k: nat :: RootAt(index, id, k) then
      var k: nat :| RootAt(index, id, k);
      k
    else 0
  }

  lemma HeightIs(index: Index, id: string, k: nat)
    requires RootAt(index, id, k)
    ensures Height(index, id) == k
  {
    hide RootAt;
    var h := Height(index, id);
    assert RootAt(index, id, h);
    if h <= k {
      RootIsUnique(index, id, h, k);
    } else {
      RootIsUnique(index, id, k, h);
    }
  }

  lemma HeightFalls(index: Index, id: string, k: nat)
    requires id in index && RootAt(index, id, k)
    ensures Linked(index, index[id])
    ensures index[id].parentId != "" ==> Height(index, index[id].parentId) < Height(index, id)
  {
    HeightIs(index, id, k);
    if index[id].parentId != "" {
      RootOfParent(index, id, k);
      HeightIs(index, index[id].parentId, k - 1);
    }
  }

  /** If every walk reaches a root over linked blocks, distance from the root ranks the forest. */
  lemma RootedIsSound(index: Index)
    requires AllRooted(index)
    ensures Sound(index)
  {
    hide RootAt, Height, Linked;
    var rank: string -> nat := id => Height(index, id);
    forall id | id in index ensures Linked(index, index[id]) && (index[id].parentId != "" ==> rank(index[id].parentId) < rank(id)) {
      var k: nat :| RootAt(index, id, k);
      HeightFalls(index, id, k);
    }
    assert RankedBy(index, rank);
  }

  /** The validation of picture parents accepts exactly the sound forests. */
  method Validate(blocks: seq<Block>, index: Index) returns (ok: bool)
    requires Indexed(blocks, index)
    ensures ok <==> Sound(index)
  {
    hide RootAt, Sound, Paired;
    IndexedIsKeyed(blocks, index);
    var i := 0;
    while i < |blocks|
      invariant i <= |blocks|
      invariant forall j :: 0 <= j < i ==> Paired(blocks[j]) && exists k: nat :: RootAt(index, blocks[j].id, k)
    {
      ghost var k;
      ok, k := CheckBlock(index, blocks[i]);
      if !ok {
        return false;
      }
      i := i + 1;
    }
    forall id | id in index ensures Paired(index[id]) && exists k: nat :: RootAt(index, id, k) {
      var j :| 0 <= j < |blocks| && blocks[j].id == id;
    }
    RootedIsSound(index);
    ok := true;
  }

  // ---- What is accepted ------------------------------------------------------------------------

  /** The block's parent, if it has one: a picture of this name, on all the pages of the block. */
  ghost predicate ParentFits(index: Index, id: string)
    requires id in index
  {
    var b := index[id];
    && (b.parentId == "" <==> b.parentRef == "")
    && (b.parentId != "" ==>
          exists p :: p in index && p == b.parentId && index[p].image && index[p].source == b.parentRef && forall n :: n in b.pages ==> n in index[p].pages)
  }

  /** Each is the parent of the one before it. */
  ghost predicate Chain(index: Index, s: seq<string>) {
    && s != [] && (forall i :: 0 <= i < |s| ==> s[i] in index)
    && forall i :: 0 < i < |s| ==> s[i] != "" && index[s[i - 1]].parentId == s[i]
  }

  ghost predicate Unrepeated(s: seq<string>) {
    forall i, j :: 0 <= i < j < |s| ==> s[i] != s[j]
  }

  lemma FitsIsLinked(index: Index, id: string)
    requires id in index
    ensures ParentFits(index, id) <==> Paired(index[id]) && Linked(index, index[id])
  {
  }

  lemma {:induction false} ChainFalls(index: Index, rank: string -> nat, s: seq<string>, i: nat, j: nat)
    requires RankedBy(index, rank) && Chain(index, s) && i < j < |s|
    ensures rank(s[j]) < rank(s[i])
  {
    if i < j - 1 {
      ChainFalls(index, rank, s, i, j - 1);
    }
  }

  /** No more different ids than blocks. */
  lemma {:induction false} Pigeonhole(s: seq<string>, ids: set<string>)
    requires Unrepeated(s) && forall i :: 0 <= i < |s| ==> s[i] in ids
    ensures |s| <= |ids|
  {
    if s != [] {
      var n := |s| - 1;
      Pigeonhole(s[..n], ids - {s[n]});
    }
  }

  lemma {:induction false} ChainIsWalk(index: Index, s: seq<string>, k: nat)
    requires Chain(index, s) && k < |s|
    ensures Up(index, s[0], k) == Some(s[k])
  {
    if k > 0 {
      ChainIsWalk(index, s, k - 1);
    }
  }

  /** Chains without repetition end at a root. */
  lemma {:induction false} ClimbToRoot(index: Index, s: seq<string>)
    requires forall id :: id in index ==> ParentFits(index, id)
    requires (forall c :: Chain(index, c) ==> Unrepeated(c)) && Chain(index, s)
    ensures exists k: nat :: RootAt(index, s[0], k)
    decreases |index| - |s|
  {
    hide Up, ParentFits;
    var last := s[|s| - 1];
    FitsIsLinked(index, last);
    if index[last].parentId == "" {
      forall j | 0 <= j < |s| ensures Up(index, s[0], j) == Some(s[j]) && Linked(index, index[s[j]]) {
        ChainIsWalk(index, s, j);
        FitsIsLinked(index, s[j]);
      }
      assert RootAt(index, s[0], |s| - 1);
    } else {
      var longer := s + [index[last].parentId];
      assert Chain(index, longer);
      Pigeonhole(longer, index.Keys);
      ClimbToRoot(index, longer);
    }
  }

  /** Accepted are the blocks of which each has a fitting parent or none, and no chain of parents
      comes back to a block. */
  lemma WhatIsAccepted(index: Index)
    ensures Sound(index) <==>
      && (forall id :: id in index ==> ParentFits(index, id))
      && (forall s :: Chain(index, s) ==> Unrepeated(s))
  {
    hide ParentFits, Linked, Paired, RootAt, Chain, Unrepeated;
    forall id | id in index ensures ParentFits(index, id) <==> Paired(index[id]) && Linked(index, index[id]) {
      FitsIsLinked(index, id);
    }
    if Sound(index) {
      forall s | Chain(index, s) ensures Unrepeated(s) {
        ForestChain(index, s);
      }
    }
    if (forall id :: id in index ==> ParentFits(index, id)) && forall s :: Chain(index, s) ==> Unrepeated(s) {
      forall id | id in index ensures exists k: nat :: RootAt(index, id, k) {
        OneLink(index, id);
        ClimbToRoot(index, [id]);
      }
      RootedIsSound(index);
    }
  }

  lemma OneLink(index: Index, id: string)
    requires id in index
    ensures Chain(index, [id])
  {
  }

  lemma ForestChain(index: Index, s: seq<string>)
    requires Forest(index) && Chain(index, s)
    ensures Unrepeated(s)
  {
    var rank :| RankedBy(index, rank);
    forall i, j | 0 <= i < j < |s| ensures s[i] != s[j] {
      ChainFalls(index, rank, s, i, j);
    }
  }

  // ---- Assets and chunks ------------------------------------------------------------------------

  /** A block is the asset's block or lies under it. */
  ghost predicate Under(index: Index, id: string, asset: string) {
    exists k: nat :: Up(index, id, k) == Some(asset)
  }

  lemma UnderParent(index: Index, id: string, asset: string)
    requires id in index
    ensures Under(index, id, asset) <==>
              || id == asset
              || (index[id].parentId in index && index[id].parentId != "" && Under(index, index[id].parentId, asset))
  {
    assert Up(index, id, 0) == Some(id);
    var p := index[id].parentId;
    if p in index && p != "" {
      forall k: nat ensures Up(index, id, k + 1) == Up(index, p, k) {
        UpShift(index, id, k);
      }
      if Under(index, p, asset) {
        var k: nat :| Up(index, p, k) == Some(asset);
        assert Up(index, id, k + 1) == Some(asset);
      }
      if Under(index, id, asset) && id != asset {
        var k: nat :| Up(index, id, k) == Some(asset);
        assert Up(index, p, k - 1) == Some(asset);
      }
    } else if Under(index, id, asset) && id != asset {
      var k: nat :| Up(index, id, k) == Some(asset);
      NothingAbove(index, id, k);
    }
  }

  lemma {:induction false} NothingAbove(index: Index, id: string, k: nat)
    requires id in index && !(index[id].parentId in index && index[id].parentId != "")
    ensures k > 0 ==> Up(index, id, k).None?
  {
    if k > 1 {
      NothingAbove(index, id, k - 1);
    }
  }

  /** The unguarded walk of the asset mapping.  On a sound forest it ends, and finds the asset's
      block exactly if it is above. */
  method IsUnder(index: Index, b: Block, asset: string) returns (found: bool)
    requires Keyed(index) && Sound(index) && b.id in index && index[b.id] == b
    ensures found <==> Under(index, b.id, asset)
  {
    ghost var rank :| RankedBy(index, rank);
    hide Up, Under;
    var node := Some(b);
    found := false;
    while node.Some?
      invariant node.Some? ==> node.value.id in index && index[node.value.id] == node.value
      invariant !found && (Under(index, b.id, asset) <==> node.Some? && Under(index, node.value.id, asset))
      decreases if node.Some? then 1 + rank(node.value.id) else 0
    {
      UnderParent(index, node.value.id, asset);
      if node.value.id == asset {
        return true;
      }
      var p := node.value.parentId;
      node := if p in index then Some(index[p]) else None;
    }
  }

  datatype Chunk = Chunk(position: nat, range: Option<(nat, nat)>)

  predicate Overlaps(b: Block, c: Chunk) {
    && c.range.Some?
    && (if b.start != b.end then b.start < c.range.value.1 && c.range.value.0 < b.end
        else c.range.value.0 <= b.start < c.range.value.1)
  }

  /** They overlap if they have a position in common, an empty block having the one it stands at; an
      empty chunk, if it lies strictly inside of the block; a chunk without offsets, never. */
  lemma OverlapMeans(b: Block, c: Chunk)
    requires b.start <= b.end && (c.range.Some? ==> c.range.value.0 <= c.range.value.1)
    ensures c.range.None? ==> !Overlaps(b, c)
    ensures c.range.Some? && c.range.value.0 < c.range.value.1 ==>
              (Overlaps(b, c) <==> exists pos: nat :: InChunk(c, pos) && (b.start <= pos < b.end || b.start == pos == b.end))
    ensures c.range.Some? && c.range.value.0 == c.range.value.1 ==> (Overlaps(b, c) <==> b.start < c.range.value.0 < b.end)
  {
    if c.range.Some? && c.range.value.0 < c.range.value.1 && Overlaps(b, c) {
      assert InChunk(c, if c.range.value.0 < b.start then b.start else c.range.value.0);
    }
  }

  ghost predicate InChunk(c: Chunk, pos: nat) {
    c.range.Some? && c.range.value.0 <= pos < c.range.value.1
  }

  /** The chunk overlaps the asset's block or one nested under it. */
  ghost predicate Shows(blocks: seq<Block>, index: Index, asset: string, c: Chunk) {
    exists i :: 0 <= i < |blocks| && Under(index, blocks[i].id, asset) && Overlaps(blocks[i], c)
  }

  /** The blocks whose ranges count for an asset. */
  method AssetRanges(blocks: seq<Block>, index: Index, asset: string) returns (ranges: seq<Block>)
    requires Indexed(blocks, index) && Sound(index)
    ensures forall r :: 0 <= r < |ranges| ==> ranges[r] in blocks && Under(index, ranges[r].id, asset)
    ensures forall j :: 0 <= j < |blocks| && Under(index, blocks[j].id, asset) ==> blocks[j] in ranges
  {
    hide Under, Sound;
    IndexedIsKeyed(blocks, index);
    ranges := [];
    var i := 0;
    while i < |blocks|
      invariant i <= |blocks|
      invariant forall r :: 0 <= r < |ranges| ==> ranges[r] in blocks && Under(index, ranges[r].id, asset)
      invariant forall j :: 0 <= j < i && Under(index, blocks[j].id, asset) ==> blocks[j] in ranges
    {
      var found := IsUnder(index, blocks[i], asset);
      if found {
        ranges := ranges + [blocks[i]];
      }
      i := i + 1;
    }
  }

  /** The positions of the chunks that show the asset, in the chunks' order. */
  ghost function ShownPositions(blocks: seq<Block>, index: Index, asset: string, chunks: seq<Chunk>): seq<nat> {
    if chunks == [] then []
    else
      var n := |chunks| - 1;
      ShownPositions(blocks, index, asset, chunks[..n])
        + if Shows(blocks, index, asset, chunks[n]) then [chunks[n].position] else []
  }

  /** `pdf_asset_chunk_indexes`: the chunks that show the asset, in order, and no others. */
  method AssetChunks(blocks: seq<Block>, index: Index, asset: string, chunks: seq<Chunk>) returns (positions: seq<nat>)
    requires Indexed(blocks, index) && Sound(index)
    ensures positions == ShownPositions(blocks, index, asset, chunks)
  {
    hide Under, Sound, Indexed, Shows;
    var ranges := AssetRanges(blocks, index, asset);
    positions := [];
    var c := 0;
    while c < |chunks|
      invariant c <= |chunks| && positions == ShownPositions(blocks, index, asset, chunks[..c])
    {
      ShownByRanges(blocks, index, asset, chunks[c], ranges);
      assert chunks[..c + 1][..c] == chunks[..c];
      if exists r :: 0 <= r < |ranges| && Overlaps(ranges[r], chunks[c]) {
        positions := positions + [chunks[c].position];
      }
      c := c + 1;
    }
    assert chunks[..c] == chunks;
  }

  lemma ShownByRanges(blocks: seq<Block>, index: Index, asset: string, c: Chunk, ranges: seq<Block>)
    requires forall r :: 0 <= r < |ranges| ==> ranges[r] in blocks && Under(index, ranges[r].id, asset)
    requires forall j :: 0 <= j < |blocks| && Under(index, blocks[j].id, asset) ==> blocks[j] in ranges
    ensures (exists r :: 0 <= r < |ranges| && Overlaps(ranges[r], c)) <==> Shows(blocks, index, asset, c)
  {
    if Shows(blocks, index, asset, c) {
      var i :| 0 <= i < |blocks| && Under(index, blocks[i].id, asset) && Overlaps(blocks[i], c);
      var r :| 0 <= r < |ranges| && ranges[r] == blocks[i];
    }
  }

  /** On a sound forest, pages grow upwards: whatever lies under a picture is on its pages. */
  lemma {:induction false} PagesGrow(index: Index, id: string, k: nat)
    requires Sound(index) && Up(index, id, k).Some?
    ensures id in index && Up(index, id, k).value in index && index[id].pages <= index[Up(index, id, k).value].pages
    ensures k > 0 ==> index[Up(index, id, k).value].image
  {
    if k > 0 {
      PagesGrow(index, id, k - 1);
    }
  }
}
