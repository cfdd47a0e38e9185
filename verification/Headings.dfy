/** Document structure from a parser's items: the path of open headings, and the picture an
    item is nested under. */
module Headings {
  import opened Text

  // ---- Headings ------------------------------------------------------------------------------

  /** An item in reading order; a heading has a level. */
  datatype Item = Item(heading: bool, level: int, text: string)

  datatype Heading = Heading(level: int, text: string)

  function AsHeading(i: Item): Heading {
    Heading(i.level, i.text)
  }

  /** The heading at `j` is still open after `n` items: no later heading of an equal or lower
      level has closed it. */
  predicate Open(items: seq<Item>, n: nat, j: nat)
    requires n <= |items|
  {
    j < n && items[j].heading && forall m :: j < m < n && items[m].heading ==> items[j].level < items[m].level
  }

  /** Those of the first `j` items that are open headings after `n`, in order. */
  function OpenHeadings(items: seq<Item>, n: nat, j: nat): seq<Heading>
    requires j <= n <= |items|
  {
    if j == 0 then []
    else OpenHeadings(items, n, j - 1) + (if Open(items, n, j - 1) then [AsHeading(items[j - 1])] else [])
  }

  function Texts(headings: seq<Heading>): (r: seq<string>)
    ensures |r| == |headings| && forall i :: 0 <= i < |r| ==> r[i] == headings[i].text
  {
    if headings == [] then [] else [headings[0].text] + Texts(headings[1..])
  }

  /** `[h for h in headings if h.level < level]`. */
  function Below(headings: seq<Heading>, level: int): seq<Heading> {
    if headings == [] then []
    else Below(headings[..|headings| - 1], level)
         + (if headings[|headings| - 1].level < level then [headings[|headings| - 1]] else [])
  }

  predicate StrictlyRising(headings: seq<Heading>) {
    forall i, j :: 0 <= i < j < |headings| ==> headings[i].level < headings[j].level
  }

  lemma BelowLast(headings: seq<Heading>, h: Heading, level: int)
    ensures Below(headings + [h], level) == Below(headings, level) + (if h.level < level then [h] else [])
  {
    assert (headings + [h])[..|headings|] == headings;
  }

  lemma OpenAfterHeading(items: seq<Item>, n: nat, j: nat)
    requires j < n < |items| && items[n].heading
    ensures Open(items, n + 1, j) <==> Open(items, n, j) && items[j].level < items[n].level
  {
  }

  /** Reading a heading keeps exactly the open headings of lower level. */
  lemma {:induction false} HeadingCloses(items: seq<Item>, n: nat, j: nat)
    requires j <= n < |items| && items[n].heading
    ensures OpenHeadings(items, n + 1, j) == Below(OpenHeadings(items, n, j), items[n].level)
    decreases j
  {
    if j > 0 {
      HeadingCloses(items, n, j - 1);
      OpenAfterHeading(items, n, j - 1);
      var before := OpenHeadings(items, n, j - 1);
      BelowLast(before, AsHeading(items[j - 1]), items[n].level);
      assert before + [] == before && Below(before, items[n].level) + [] == Below(before, items[n].level);
    }
  }

  lemma {:induction false} OtherItemsKeep(items: seq<Item>, n: nat, j: nat)
    requires j <= n < |items| && !items[n].heading
    ensures OpenHeadings(items, n + 1, j) == OpenHeadings(items, n, j)
    decreases j
  {
    if j > 0 {
      OtherItemsKeep(items, n, j - 1);
      assert Open(items, n + 1, j - 1) <==> Open(items, n, j - 1);
    }
  }

  /** Open headings always rise strictly in level. */
  lemma {:induction false} OpenHeadingsRise(items: seq<Item>, n: nat, j: nat)
    requires j <= n <= |items|
    ensures StrictlyRising(OpenHeadings(items, n, j))
    ensures forall h :: h in OpenHeadings(items, n, j) ==> exists m :: 0 <= m < j && Open(items, n, m) && h == AsHeading(items[m])
    decreases j
  {
    if j > 0 {
      OpenHeadingsRise(items, n, j - 1);
      var before := OpenHeadings(items, n, j - 1);
      if Open(items, n, j - 1) {
        forall i | 0 <= i < |before| ensures before[i].level < items[j - 1].level {
          assert before[i] in before;
        }
      }
    }
  }

  /** One item: a heading closes and joins, anything else leaves the stack alone. */
  lemma OneItem(items: seq<Item>, i: nat)
    requires i < |items|
    ensures OpenHeadings(items, i + 1, i + 1)
         == if items[i].heading then Below(OpenHeadings(items, i, i), items[i].level) + [AsHeading(items[i])]
            else OpenHeadings(items, i, i)
    ensures StrictlyRising(OpenHeadings(items, i + 1, i + 1))
  {
    OpenHeadingsRise(items, i + 1, i + 1);
    if items[i].heading {
      HeadingCloses(items, i, i);
    } else {
      OtherItemsKeep(items, i, i);
      assert OpenHeadings(items, i + 1, i) + [] == OpenHeadings(items, i + 1, i);
    }
  }

  /** A path and the items its texts are of: in their order, the headings among the first `n` items
      that no later heading of an equal or lower level follows. */
  ghost predicate Traced(items: seq<Item>, n: nat, path: seq<string>, at: seq<nat>)
    requires n <= |items|
  {
    && |path| == |at| && (forall i, j :: 0 <= i < j < |at| ==> at[i] < at[j])
    && (forall i :: 0 <= i < |at| ==> at[i] < n && path[i] == items[at[i]].text)
    && forall j: nat :: j in at <==> j < n && items[j].heading && !exists m :: j < m < n && items[m].heading && items[m].level <= items[j].level
  }

  /** The same for the first `j` of them. */
  ghost predicate TracedTo(items: seq<Item>, n: nat, j: nat, path: seq<string>, at: seq<nat>)
    requires j <= n <= |items|
  {
    && |path| == |at| && (forall i, k :: 0 <= i < k < |at| ==> at[i] < at[k])
    && (forall i :: 0 <= i < |at| ==> at[i] < j && path[i] == items[at[i]].text)
    && forall k: nat :: k in at <==> k < j && Open(items, n, k)
  }

  lemma TextsOfMore(headings: seq<Heading>, h: Heading)
    ensures Texts(headings + [h]) == Texts(headings) + [h.text]
  {
  }

  lemma TraceOneMore(items: seq<Item>, n: nat, j: nat, path: seq<string>, at: seq<nat>)
    requires j < n <= |items| && TracedTo(items, n, j, path, at)
    ensures Open(items, n, j) ==> TracedTo(items, n, j + 1, path + [items[j].text], at + [j])
    ensures !Open(items, n, j) ==> TracedTo(items, n, j + 1, path, at)
  {
    hide Open;
  }

  lemma {:induction false} TraceTo(items: seq<Item>, n: nat, j: nat) returns (at: seq<nat>)
    requires j <= n <= |items|
    ensures TracedTo(items, n, j, Texts(OpenHeadings(items, n, j)), at)
    decreases j
  {
    hide TracedTo, Open;
    if j == 0 {
      at := [];
      NothingTraced(items, n);
    } else {
      at := TraceTo(items, n, j - 1);
      var before := OpenHeadings(items, n, j - 1);
      TraceOneMore(items, n, j - 1, Texts(before), at);
      if Open(items, n, j - 1) {
        TextsOfMore(before, AsHeading(items[j - 1]));
        at := at + [j - 1];
      } else {
        assert before + [] == before;
      }
    }
  }

  lemma NothingTraced(items: seq<Item>, n: nat)
    requires n <= |items|
    ensures TracedTo(items, n, 0, [], [])
  {
  }

  lemma PathMeans(items: seq<Item>, n: nat)
    requires n <= |items|
    ensures exists at :: Traced(items, n, Texts(OpenHeadings(items, n, n)), at)
  {
    hide OpenHeadings;
    var at := TraceTo(items, n, n);
    assert Traced(items, n, Texts(OpenHeadings(items, n, n)), at);
  }

  /** The heading part of the extraction loop: each item's path of headings. */
  method HeadingPaths(items: seq<Item>) returns (paths: seq<seq<string>>)
    ensures |paths| == |items|
    ensures forall i :: 0 <= i < |items| ==> paths[i] == Texts(OpenHeadings(items, i + 1, i + 1))
  {
    hide OpenHeadings, Below, StrictlyRising;
    NoHeadings(items);
    var headings: seq<Heading> := [];
    paths := [];
    var i := 0;
    while i < |items|
      invariant i == |paths| <= |items|
      invariant headings == OpenHeadings(items, i, i) && StrictlyRising(headings)
      invariant forall j :: 0 <= j < i ==> paths[j] == Texts(OpenHeadings(items, j + 1, j + 1))
    {
      OneItem(items, i);
      if items[i].heading {
        headings := Below(headings, items[i].level) + [AsHeading(items[i])];
      }
      paths := paths + [Texts(headings)];
      i := i + 1;
    }
  }

  lemma NoHeadings(items: seq<Item>)
    ensures OpenHeadings(items, 0, 0) == [] && StrictlyRising([])
  {
  }

  // ---- The picture above an item -----------------------------------------------------------------

  datatype Node = Node(parent: Option<string>, picture: bool)

  type Tree = map<string, Node>

  /** The `k`-th ancestor, while parents resolve. */
  function Up(t: Tree, ref: string, k: nat): Option<string> {
    if k == 0 then Some(ref)
    else
      match Up(t, ref, k - 1)
      case None => None
      case Some(r) => if r in t then t[r].parent else None
  }

  datatype Above = Picture(ref: string) | NoPicture | Cyclic | Unresolved

  /** A walk of `k` steps over resolved ancestors that are no pictures and do not repeat. */
  ghost predicate Plain(t: Tree, ref: string, k: nat) {
    && (forall j :: 0 <= j <= k ==> Up(t, ref, j).Some?)
    && (forall j :: 0 < j <= k ==> Up(t, ref, j).value in t && !t[Up(t, ref, j).value].picture)
    && (forall i, j :: 0 <= i < j <= k ==> Up(t, ref, i) != Up(t, ref, j))
  }

  ghost predicate Repeats(t: Tree, ref: string, k: nat) {
    exists j :: 0 <= j <= k && Up(t, ref, j) == Up(t, ref, k + 1)
  }

  /** What each outcome says about the chain of ancestors, `k` steps up. */
  ghost predicate Explained(t: Tree, ref: string, a: Above, k: nat) {
    && Plain(t, ref, k)
    && match a
       case NoPicture => Up(t, ref, k + 1).None?
       case Cyclic => Up(t, ref, k + 1).Some? && Repeats(t, ref, k)
       case Unresolved => Up(t, ref, k + 1).Some? && !Repeats(t, ref, k) && Up(t, ref, k + 1).value !in t
       case Picture(p) => Up(t, ref, k + 1) == Some(p) && !Repeats(t, ref, k) && p in t && t[p].picture
  }

  /** What the walk knows after `k` steps. */
  ghost predicate Walked(t: Tree, ref: string, node: string, seen: set<string>, k: nat) {
    && node in t && seen <= t.Keys && Up(t, ref, k) == Some(node) && Plain(t, ref, k)
    && forall r :: r in seen <==> exists j :: 0 <= j <= k && Up(t, ref, j) == Some(r)
  }

  lemma WalkOn(t: Tree, ref: string, node: string, seen: set<string>, k: nat)
    requires Walked(t, ref, node, seen, k) && t[node].parent.Some?
    ensures var parent := t[node].parent.value;
            && Up(t, ref, k + 1) == Some(parent) && (parent in seen <==> Repeats(t, ref, k))
            && (parent !in seen && parent in t && !t[parent].picture ==> Walked(t, ref, parent, seen + {parent}, k + 1))
  {
    hide Up;
    var parent := t[node].parent.value;
    UpOnce(t, ref, node, k);
    if parent !in seen && parent in t && !t[parent].picture {
      PlainOn(t, ref, parent, k);
    }
    if parent !in seen && parent in t && !t[parent].picture {
      forall r | r in seen + {parent} ensures exists j :: 0 <= j <= k + 1 && Up(t, ref, j) == Some(r) {
        if r in seen {
          var j :| 0 <= j <= k && Up(t, ref, j) == Some(r);
          assert j <= k + 1;
        } else {
          assert Up(t, ref, k + 1) == Some(r);
        }
      }
      forall j | 0 <= j <= k + 1 && Up(t, ref, j).Some? ensures Up(t, ref, j).value in seen + {parent} {
        if j <= k {
          assert Up(t, ref, j).value in seen;
        }
      }
    }
  }

  lemma UpOnce(t: Tree, ref: string, node: string, k: nat)
    requires Up(t, ref, k) == Some(node) && node in t
    ensures Up(t, ref, k + 1) == t[node].parent
  {
  }

  lemma PlainOn(t: Tree, ref: string, parent: string, k: nat)
    requires Plain(t, ref, k) && Up(t, ref, k + 1) == Some(parent) && parent in t && !t[parent].picture && !Repeats(t, ref, k)
    ensures Plain(t, ref, k + 1)
  {
    hide Up;
  }

  /** The guarded walk ends, whatever the references: with the nearest picture above the item,
      or with the reason why there is none. */
  method PictureAbove(t: Tree, ref: string) returns (a: Above)
    requires ref in t
    ensures exists k: nat :: Explained(t, ref, a, k)
  {
    hide Up, Plain, Repeats;
    var node := ref;
    var seen := {ref};
    ghost var k: nat := 0;
    NotYetWalked(t, ref);
    while t[node].parent.Some?
      invariant Walked(t, ref, node, seen, k)
      decreases t.Keys - seen
    {
      WalkOn(t, ref, node, seen, k);
      var parent := t[node].parent.value;
      if parent in seen {
        assert Explained(t, ref, Cyclic, k);
        return Cyclic;
      }
      if parent !in t {
        assert Explained(t, ref, Unresolved, k);
        return Unresolved;
      }
      if t[parent].picture {
        assert Explained(t, ref, Picture(parent), k);
        return Picture(parent);
      }
      seen := seen + {parent};
      node := parent;
      k := k + 1;
    }
    NoParent(t, ref, node, k);
    a := NoPicture;
    assert Explained(t, ref, a, k);
  }

  lemma NotYetWalked(t: Tree, ref: string)
    requires ref in t
    ensures Walked(t, ref, ref, {ref}, 0)
  {
  }

  lemma NoParent(t: Tree, ref: string, node: string, k: nat)
    requires Up(t, ref, k) == Some(node) && node in t && t[node].parent.None?
    ensures Up(t, ref, k + 1).None?
  {
  }

  /** The outcome is determined: no two of them can be explained for one item. */
  lemma OutcomeIsUnique(t: Tree, ref: string, a: Above, j: nat, b: Above, k: nat)
    requires ref in t && Explained(t, ref, a, j) && Explained(t, ref, b, k)
    ensures a == b && j == k
  {
    hide Up;
    if j < k {
      WalkedPast(t, ref, j, k);
    } else if k < j {
      WalkedPast(t, ref, k, j);
    }
  }

  /** A longer plain walk has already gone past any shorter end. */
  lemma WalkedPast(t: Tree, ref: string, j: nat, k: nat)
    requires j < k && Plain(t, ref, k)
    ensures Up(t, ref, j + 1).Some? && !Repeats(t, ref, j)
    ensures Up(t, ref, j + 1).value in t && !t[Up(t, ref, j + 1).value].picture
  {
  }
}
