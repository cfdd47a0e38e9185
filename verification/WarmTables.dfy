/** The chunk table under the publications of a warm, retries included: where it ends, and
    when no document takes another's rows. */
module WarmTables {
  import opened Text
  import opened Store
  import opened Agreement
  import opened Republication

  /** A table after the first `n` documents have been published. */
  function TableAfter(t: Table, pubs: seq<Pub>, n: nat): Table
    requires n <= |pubs|
  {
    if n == 0 then t else ReplacedTable(TableAfter(t, pubs, n - 1), pubs[n - 1].doc.key, pubs[n - 1].items)
  }

  /** And after attempts that each began again and published so many documents. */
  function TableAfterAll(t: Table, pubs: seq<Pub>, reached: seq<nat>): Table
    requires forall i :: 0 <= i < |reached| ==> reached[i] <= |pubs|
  {
    if reached == [] then t
    else TableAfter(TableAfterAll(t, pubs, reached[..|reached| - 1]), pubs, reached[|reached| - 1])
  }

  // ---- Retries end with the same table ---------------------------------------------------

  ghost predicate Writes(pubs: seq<Pub>, n: nat, id: RowId)
    requires n <= |pubs|
  {
    exists i :: 0 <= i < n && id in ItemIds(pubs[i].items)
  }

  /** The row is filed under one of the first `n` documents. */
  ghost predicate Replaces(pubs: seq<Pub>, n: nat, m: Metadata)
    requires n <= |pubs|
  {
    SqlGroup(m).Some? && exists i :: 0 <= i < n && SqlGroup(m).value == pubs[i].doc.key
  }

  lemma OwnIds(t: Table, pub: Pub, id: RowId)
    requires id in ItemIds(pub.items)
    ensures var u := ReplacedTable(t, pub.doc.key, pub.items);
            id in u && id in Upsert(map[], pub.items) && u[id] == Upsert(map[], pub.items)[id]
  {
    UpsertSameRows(DeleteGroups(t, {pub.doc.key}), map[], pub.items);
  }

  lemma OtherIds(t: Table, pub: Pub, id: RowId)
    requires id !in ItemIds(pub.items)
    ensures var u := ReplacedTable(t, pub.doc.key, pub.items);
            && (id in u <==> id in t && SqlGroup(t[id].metadata) != Some(pub.doc.key))
            && (id in u ==> u[id] == t[id])
  {
    UpsertShape(DeleteGroups(t, {pub.doc.key}), pub.items);
  }

  ghost predicate SameAt(t: Table, u: Table, id: RowId) {
    (id in t <==> id in u) && (id in t && id in u ==> t[id] == u[id])
  }

  /** What becomes of a key that some document writes does not depend on the table the pass
      began with. */
  lemma {:induction false} WrittenRow(t: Table, u: Table, pubs: seq<Pub>, n: nat, id: RowId)
    requires n <= |pubs| && Writes(pubs, n, id)
    ensures SameAt(TableAfter(t, pubs, n), TableAfter(u, pubs, n), id)
  {
    hide ReplacedTable, ItemIds;
    var last := pubs[n - 1];
    if id in ItemIds(last.items) {
      OwnIds(TableAfter(t, pubs, n - 1), last, id);
      OwnIds(TableAfter(u, pubs, n - 1), last, id);
    } else {
      WrittenRow(t, u, pubs, n - 1, id);
      OtherIds(TableAfter(t, pubs, n - 1), last, id);
      OtherIds(TableAfter(u, pubs, n - 1), last, id);
    }
  }

  /** A row that none of them writes stays, unless its document is published. */
  lemma {:induction false} UnwrittenRow(t: Table, pubs: seq<Pub>, n: nat, id: RowId)
    requires n <= |pubs| && !Writes(pubs, n, id)
    ensures var x := TableAfter(t, pubs, n);
            && (id in x <==> id in t && !Replaces(pubs, n, t[id].metadata))
            && (id in x ==> x[id] == t[id])
  {
    hide ReplacedTable, ItemIds;
    if n > 0 {
      UnwrittenRow(t, pubs, n - 1, id);
      OtherIds(TableAfter(t, pubs, n - 1), pubs[n - 1], id);
    }
  }

  /** What attempts leave of a row that no document writes. */
  lemma {:induction false} LeftOver(t: Table, pubs: seq<Pub>, reached: seq<nat>, id: RowId)
    requires (forall i :: 0 <= i < |reached| ==> reached[i] <= |pubs|) && !Writes(pubs, |pubs|, id)
    ensures var x := TableAfterAll(t, pubs, reached);
            && (id in x ==> id in t && x[id] == t[id])
            && (id in t && !Replaces(pubs, |pubs|, t[id].metadata) ==> id in x)
  {
    hide TableAfter, Writes;
    if reached != [] {
      var n := |reached| - 1;
      LeftOver(t, pubs, reached[..n], id);
      FewerWrite(pubs, reached[n], id);
      UnwrittenRow(TableAfterAll(t, pubs, reached[..n]), pubs, reached[n], id);
    }
  }

  lemma FewerWrite(pubs: seq<Pub>, n: nat, id: RowId)
    requires n <= |pubs| && !Writes(pubs, |pubs|, id)
    ensures !Writes(pubs, n, id)
  {
  }

  /** Attempts followed by a whole pass leave the table of one whole pass, whatever rows the
      documents take from each other. */
  lemma TablesConverge(t: Table, pubs: seq<Pub>, reached: seq<nat>)
    requires forall i :: 0 <= i < |reached| ==> reached[i] <= |pubs|
    ensures TableAfter(TableAfterAll(t, pubs, reached), pubs, |pubs|) == TableAfter(t, pubs, |pubs|)
  {
    hide TableAfter, TableAfterAll, Writes, Replaces;
    var s := TableAfterAll(t, pubs, reached);
    var x, y := TableAfter(s, pubs, |pubs|), TableAfter(t, pubs, |pubs|);
    forall id ensures (id in x <==> id in y) && (id in x && id in y ==> x[id] == y[id]) {
      if Writes(pubs, |pubs|, id) {
        WrittenRow(s, t, pubs, |pubs|, id);
      } else {
        UnwrittenRow(s, pubs, |pubs|, id);
        UnwrittenRow(t, pubs, |pubs|, id);
        LeftOver(t, pubs, reached, id);
      }
    }
  }

  // ---- Documents that take nothing from each other ------------------------------------------

  /** No two documents share a chunk key. */
  ghost predicate Apart(pubs: seq<Pub>) {
    forall i, j :: 0 <= i < j < |pubs| ==> ItemIds(pubs[i].items) !! ItemIds(pubs[j].items)
  }

  /** A chunk lands only on free keys, on rows of no document, on rows of its own document or
      of one published before it. */
  ghost predicate Clear(t: Table, pubs: seq<Pub>) {
    forall i :: 0 <= i < |pubs| ==> ClearAt(t, pubs, i)
  }

  ghost predicate ClearAt(t: Table, pubs: seq<Pub>, i: nat)
    requires i < |pubs|
  {
    forall id :: id in ItemIds(pubs[i].items) && id in t && SqlGroup(t[id].metadata).Some? ==> Replaces(pubs, i + 1, t[id].metadata)
  }

  ghost predicate RowsSettledUpTo(t: Table, pubs: seq<Pub>, n: nat)
    requires n <= |pubs|
  {
    forall i :: 0 <= i < n ==> RowsSettled(t, pubs[i])
  }

  lemma SettledRowIsGrouped(t: Table, pub: Pub, id: RowId)
    requires ItemsBelong(pub.items, pub.doc.key) && RowsSettled(t, pub) && id in ItemIds(pub.items)
    ensures id in t && SqlGroup(t[id].metadata) == Some(pub.doc.key)
  {
    UpsertShape(map[], pub.items);
  }

  /** With the documents before it in place, a document hits no other's row. */
  lemma NothingOverwritten(t: Table, pubs: seq<Pub>, i: nat)
    requires i < |pubs| && PubsProper(pubs) && Apart(pubs) && ClearAt(t, pubs, i) && RowsSettledUpTo(t, pubs, i)
    ensures !Overwrites(t, pubs[i].items, pubs[i].doc.key)
  {
    var items := pubs[i].items;
    forall n | 0 <= n < |items| && ItemId(items[n]) in t && SqlGroup(t[ItemId(items[n])].metadata).Some?
      ensures SqlGroup(t[ItemId(items[n])].metadata) == Some(pubs[i].doc.key)
    {
      var id := ItemId(items[n]);
      assert id in ItemIds(items);
      var j :| 0 <= j < i + 1 && SqlGroup(t[id].metadata).value == pubs[j].doc.key;
      if j < i {
        assert RowsSettled(t, pubs[j]);
        assert InGroup(t, id, pubs[j].doc.key);
      }
    }
  }

  lemma ItemsAreGrouped(t: Table, pub: Pub, id: RowId)
    requires ItemsBelong(pub.items, pub.doc.key) && id in ItemIds(pub.items)
    ensures var u := ReplacedTable(t, pub.doc.key, pub.items);
            id in u && SqlGroup(u[id].metadata) == Some(pub.doc.key)
  {
    ReplacedGroup(t, pub.doc.key, pub.items);
    assert id in GroupIds(ReplacedTable(t, pub.doc.key, pub.items), pub.doc.key);
  }

  /** A row that some document writes is filed under one of them after a pass. */
  lemma {:induction false} WrittenIsGrouped(t: Table, pubs: seq<Pub>, n: nat, id: RowId)
    requires n <= |pubs| && PubsProper(pubs) && Writes(pubs, n, id)
    ensures var x := TableAfter(t, pubs, n); id in x && Replaces(pubs, n, x[id].metadata)
  {
    hide ReplacedTable, ItemIds, ItemsBelong;
    var last := pubs[n - 1];
    if id in ItemIds(last.items) {
      ItemsAreGrouped(TableAfter(t, pubs, n - 1), last, id);
    } else {
      WrittenIsGrouped(t, pubs, n - 1, id);
      OtherIds(TableAfter(t, pubs, n - 1), last, id);
    }
  }

  lemma ClearAfter(t: Table, pubs: seq<Pub>, n: nat)
    requires n < |pubs| && PubsProper(pubs) && Apart(pubs) && Clear(t, pubs)
    ensures Clear(ReplacedTable(t, pubs[n].doc.key, pubs[n].items), pubs)
  {
    hide ReplacedTable, ItemIds;
    var u := ReplacedTable(t, pubs[n].doc.key, pubs[n].items);
    forall i, id | 0 <= i < |pubs| && id in ItemIds(pubs[i].items) && id in u && SqlGroup(u[id].metadata).Some?
      ensures Replaces(pubs, i + 1, u[id].metadata)
    {
      if id in ItemIds(pubs[n].items) {
        ItemsAreGrouped(t, pubs[n], id);
        assert i == n;
      } else {
        OtherIds(t, pubs[n], id);
        assert ClearAt(t, pubs, i);
      }
    }
  }

  /** The rows filed under a document are the same. */
  ghost predicate SameRowsOf(a: Table, b: Table, k: DocKey) {
    GroupIds(a, k) == GroupIds(b, k) && forall id :: id in GroupIds(a, k) ==> a[id] == b[id]
  }

  lemma OthersKeepRows(t: Table, k: DocKey, items: seq<Item>, o: DocKey)
    requires ItemsBelong(items, k) && !Overwrites(t, items, k) && o != k
    ensures SameRowsOf(ReplacedTable(t, k, items), t, o)
  {
    ReplacedGroup(t, k, items);
    assert GroupIds(t, o) * ItemIds(items) == {};
    UpsertShape(DeleteGroups(t, {k}), items);
  }

  function Larger(a: nat, b: nat): nat {
    if a < b then b else a
  }

  /** A pass over documents that take nothing from each other: those it reaches are in place,
      those in place stay, all other documents keep their rows. */
  lemma {:induction false} PassSettles(t: Table, pubs: seq<Pub>, m: nat, n: nat)
    requires m <= |pubs| && n <= |pubs| && PubsProper(pubs) && Apart(pubs) && Clear(t, pubs) && RowsSettledUpTo(t, pubs, m)
    ensures var u := TableAfter(t, pubs, n);
            && Clear(u, pubs) && RowsSettledUpTo(u, pubs, Larger(m, n))
            && (n < |pubs| ==> !Overwrites(u, pubs[n].items, pubs[n].doc.key))
            && (forall k :: (forall j :: 0 <= j < n ==> pubs[j].doc.key != k) ==> SameRowsOf(u, t, k))
  {
    hide ReplacedTable, ItemIds, Overwrites, RowsSettled, Apart, ClearAt, SameRowsOf;
    if n > 0 {
      PassSettles(t, pubs, m, n - 1);
      var v := TableAfter(t, pubs, n - 1);
      OneMoreRow(v, pubs, Larger(m, n - 1), n - 1);
      forall k | forall j :: 0 <= j < n ==> pubs[j].doc.key != k ensures SameRowsOf(TableAfter(t, pubs, n), t, k) {
        OthersKeepRows(v, pubs[n - 1].doc.key, pubs[n - 1].items, k);
        SameRowsTransitive(TableAfter(t, pubs, n), v, t, k);
      }
    } else {
      forall k ensures SameRowsOf(t, t, k) {
        SameRowsItself(t, k);
      }
    }
    if n < |pubs| {
      var u := TableAfter(t, pubs, n);
      assert RowsSettledUpTo(u, pubs, n);
      assert ClearAt(u, pubs, n);
      NothingOverwritten(u, pubs, n);
    }
  }

  lemma SameRowsItself(t: Table, k: DocKey)
    ensures SameRowsOf(t, t, k)
  {
  }

  lemma SameRowsTransitive(a: Table, b: Table, c: Table, k: DocKey)
    requires SameRowsOf(a, b, k) && SameRowsOf(b, c, k)
    ensures SameRowsOf(a, c, k)
  {
  }

  lemma OneMoreRow(t: Table, pubs: seq<Pub>, m: nat, n: nat)
    requires n < |pubs| && m <= |pubs| && PubsProper(pubs) && Apart(pubs) && Clear(t, pubs)
    requires n <= m && RowsSettledUpTo(t, pubs, m)
    requires !Overwrites(t, pubs[n].items, pubs[n].doc.key)
    ensures var u := ReplacedTable(t, pubs[n].doc.key, pubs[n].items);
            Clear(u, pubs) && RowsSettledUpTo(u, pubs, Larger(m, n + 1))
  {
    hide ReplacedTable, ItemIds, Overwrites, RowsSettled, Apart, ClearAt;
    var u := ReplacedTable(t, pubs[n].doc.key, pubs[n].items);
    ClearAfter(t, pubs, n);
    ReplacedRowsSettle(t, pubs[n]);
    forall i | 0 <= i < Larger(m, n + 1) && i != n ensures RowsSettled(u, pubs[i]) {
      OtherRowsStay(t, pubs[i], pubs[n].doc.key, pubs[n].items);
    }
  }

  /** The same for attempts one after another. */
  lemma {:induction false} AttemptsSettle(t: Table, pubs: seq<Pub>, reached: seq<nat>) returns (k: nat)
    requires (forall i :: 0 <= i < |reached| ==> reached[i] <= |pubs|) && PubsProper(pubs) && Apart(pubs) && Clear(t, pubs)
    ensures k <= |pubs| && (forall i :: 0 <= i < |reached| ==> reached[i] <= k) && (k == 0 || k in reached)
    ensures var u := TableAfterAll(t, pubs, reached);
            && Clear(u, pubs) && RowsSettledUpTo(u, pubs, k)
            && (forall o :: (forall j :: 0 <= j < k ==> pubs[j].doc.key != o) ==> SameRowsOf(u, t, o))
  {
    hide TableAfter, Clear, RowsSettledUpTo, PubsProper, Apart, SameRowsOf;
    if reached == [] {
      k := 0;
      NothingSettled(t, pubs);
    } else {
      var n := |reached| - 1;
      var k' := AttemptsSettle(t, pubs, reached[..n]);
      var v := TableAfterAll(t, pubs, reached[..n]);
      PassSettles(v, pubs, k', reached[n]);
      k := Larger(k', reached[n]);
      forall o | forall j :: 0 <= j < k ==> pubs[j].doc.key != o ensures SameRowsOf(TableAfterAll(t, pubs, reached), t, o) {
        SameRowsTransitive(TableAfterAll(t, pubs, reached), v, t, o);
      }
    }
  }

  lemma NothingSettled(t: Table, pubs: seq<Pub>)
    ensures RowsSettledUpTo(t, pubs, 0) && forall o :: SameRowsOf(t, t, o)
  {
  }

  // ---- And only those ----------------------------------------------------------------------------

  /** If no document of the first `n` overwrites another's row when its turn comes, they share
      no keys and were clear from the start. */
  lemma {:induction false} UnhitMeansApart(t: Table, pubs: seq<Pub>, n: nat)
    requires n <= |pubs| && PubsProper(pubs)
    requires forall i :: 0 <= i < n ==> !Overwrites(TableAfter(t, pubs, i), pubs[i].items, pubs[i].doc.key)
    ensures RowsSettledUpTo(TableAfter(t, pubs, n), pubs, n)
    ensures forall i, j :: 0 <= i < j < n ==> ItemIds(pubs[i].items) !! ItemIds(pubs[j].items)
    ensures forall i :: 0 <= i < n ==> ClearAt(t, pubs, i)
  {
    hide ReplacedTable, ItemIds, Overwrites, RowsSettledUpTo, ClearAt, PubsProper, TableAfter;
    if n > 0 {
      UnhitMeansApart(t, pubs, n - 1);
      OneMoreTable(t, pubs, n);
      OneMoreUnhit(TableAfter(t, pubs, n - 1), pubs, n - 1);
      UnhitIsClear(t, pubs, n - 1);
    } else {
      NoTable(t, pubs);
      NothingSettled(t, pubs);
    }
  }

  lemma OneMoreTable(t: Table, pubs: seq<Pub>, n: nat)
    requires 0 < n <= |pubs|
    ensures TableAfter(t, pubs, n) == ReplacedTable(TableAfter(t, pubs, n - 1), pubs[n - 1].doc.key, pubs[n - 1].items)
  {
  }

  lemma NoTable(t: Table, pubs: seq<Pub>)
    ensures TableAfter(t, pubs, 0) == t
  {
  }

  lemma OneMoreUnhit(t: Table, pubs: seq<Pub>, n: nat)
    requires n < |pubs| && PubsProper(pubs) && RowsSettledUpTo(t, pubs, n) && !Overwrites(t, pubs[n].items, pubs[n].doc.key)
    ensures RowsSettledUpTo(ReplacedTable(t, pubs[n].doc.key, pubs[n].items), pubs, n + 1)
    ensures forall i :: 0 <= i < n ==> ItemIds(pubs[i].items) !! ItemIds(pubs[n].items)
  {
    hide ReplacedTable, ItemIds, Overwrites, RowsSettled;
    ReplacedRowsSettle(t, pubs[n]);
    forall i | 0 <= i < n
      ensures RowsSettled(ReplacedTable(t, pubs[n].doc.key, pubs[n].items), pubs[i]) && ItemIds(pubs[i].items) !! ItemIds(pubs[n].items)
    {
      OtherRowsStay(t, pubs[i], pubs[n].doc.key, pubs[n].items);
      UnhitIsDisjoint(t, pubs[i], pubs[n]);
    }
  }

  lemma UnhitIsDisjoint(t: Table, pub: Pub, other: Pub)
    requires ItemsBelong(pub.items, pub.doc.key) && RowsSettled(t, pub) && pub.doc.key != other.doc.key
    requires !Overwrites(t, other.items, other.doc.key)
    ensures ItemIds(pub.items) !! ItemIds(other.items)
  {
    forall id | id in ItemIds(other.items) ensures id !in ItemIds(pub.items) {
      var n :| 0 <= n < |other.items| && ItemId(other.items[n]) == id;
      if id in ItemIds(pub.items) {
        SettledRowIsGrouped(t, pub, id);
      }
    }
  }

  lemma UnhitIsClear(t: Table, pubs: seq<Pub>, i: nat)
    requires i < |pubs| && PubsProper(pubs)
    requires !Overwrites(TableAfter(t, pubs, i), pubs[i].items, pubs[i].doc.key)
    requires forall j :: 0 <= j < i ==> ClearAt(t, pubs, j)
    ensures ClearAt(t, pubs, i)
  {
    hide TableAfter;
    var u := TableAfter(t, pubs, i);
    forall id | id in ItemIds(pubs[i].items) && id in t && SqlGroup(t[id].metadata).Some?
      ensures Replaces(pubs, i + 1, t[id].metadata)
    {
      if Writes(pubs, i, id) {
        var j :| 0 <= j < i && id in ItemIds(pubs[j].items);
        assert ClearAt(t, pubs, j);
      } else {
        UnwrittenRow(t, pubs, i, id);
        var n :| 0 <= n < |pubs[i].items| && ItemId(pubs[i].items[n]) == id;
      }
    }
  }
}
