/** The database cell by cell: a cell is what one row of one table holds.  Two databases can be
    compared at a cell, and one can be laid over another at some cells, as a transaction's own
    changes are laid over what is committed. */
module Cells {
  import opened Text
  import opened Store

  datatype Cell =
    | ChunkAt(model: string, id: RowId)
    | CatalogAt(model: string, key: DocKey)
    | RevisionAt(scope: Scope)
    | StatusAt(model: string)
    | SourceAt(key: DocKey)
    | AssetAt(asset: string)
    | RefAt(r: Ref)
    | ReadyAt

  /** The same profiles are registered, with storage or without, and the same workspaces known. */
  predicate SameShape(a: Db, b: Db) {
    && a.profiles.Keys == b.profiles.Keys && a.workspaces == b.workspaces
    && forall m :: m in a.profiles ==> a.profiles[m].provisioned == b.profiles[m].provisioned
  }

  predicate SameEntry<K(==), V(==)>(k: K, a: map<K, V>, b: map<K, V>) {
    (k in a <==> k in b) && (k in a && k in b ==> a[k] == b[k])
  }

  /** Two databases hold the same at a cell. */
  predicate Same(x: Cell, a: Db, b: Db) {
    match x
    case ChunkAt(m, id) => m in a.profiles && m in b.profiles ==> SameEntry(id, a.profiles[m].table, b.profiles[m].table)
    case CatalogAt(m, k) => m in a.profiles && m in b.profiles ==> SameEntry(k, a.profiles[m].catalog, b.profiles[m].catalog)
    case RevisionAt(s) => SameEntry(s, a.revisions, b.revisions)
    case StatusAt(m) => m in a.profiles && m in b.profiles ==> a.profiles[m].status == b.profiles[m].status
    case SourceAt(k) => SameEntry(k, a.sources, b.sources)
    case AssetAt(i) => SameEntry(i, a.assets, b.assets)
    case RefAt(r) => r in a.refs <==> r in b.refs
    case ReadyAt => a.ready == b.ready
  }

  lemma SameTransitive(x: Cell, a: Db, b: Db, c: Db)
    requires Same(x, a, b) && Same(x, b, c) && SameShape(a, b) && SameShape(b, c)
    ensures Same(x, a, c)
  {
  }

  lemma SameEntries<K, V>(a: map<K, V>, b: map<K, V>)
    requires forall k :: SameEntry(k, a, b)
    ensures a == b
  {
    assert forall k :: k in a <==> k in b by {
      forall k ensures k in a <==> k in b {
        assert SameEntry(k, a, b);
      }
    }
    forall k | k in a ensures a[k] == b[k] {
      assert SameEntry(k, a, b);
    }
  }

  /** Cells are all there is to a database of a given shape. */
  lemma SameEverywhere(a: Db, b: Db)
    requires SameShape(a, b) && forall x :: Same(x, a, b)
    ensures a == b
  {
    forall m | m in a.profiles ensures a.profiles[m] == b.profiles[m] {
      SameProfile(a, b, m);
    }
    assert a.profiles == b.profiles;
    SameOutside(a, b);
  }

  lemma SameProfile(a: Db, b: Db, m: string)
    requires SameShape(a, b) && (forall x :: Same(x, a, b)) && m in a.profiles
    ensures a.profiles[m] == b.profiles[m]
  {
    var p, q := a.profiles[m], b.profiles[m];
    forall id ensures SameEntry(id, p.table, q.table) {
      assert Same(ChunkAt(m, id), a, b);
    }
    forall k ensures SameEntry(k, p.catalog, q.catalog) {
      assert Same(CatalogAt(m, k), a, b);
    }
    SameEntries(p.table, q.table);
    SameEntries(p.catalog, q.catalog);
    assert Same(StatusAt(m), a, b);
  }

  lemma SameOutside(a: Db, b: Db)
    requires forall x :: Same(x, a, b)
    ensures a.revisions == b.revisions && a.sources == b.sources && a.assets == b.assets && a.refs == b.refs && a.ready == b.ready
  {
    forall s ensures SameEntry(s, a.revisions, b.revisions) {
      assert Same(RevisionAt(s), a, b);
    }
    forall k ensures SameEntry(k, a.sources, b.sources) {
      assert Same(SourceAt(k), a, b);
    }
    forall i ensures SameEntry(i, a.assets, b.assets) {
      assert Same(AssetAt(i), a, b);
    }
    forall r ensures r in a.refs <==> r in b.refs {
      assert Same(RefAt(r), a, b);
    }
    SameEntries(a.revisions, b.revisions);
    SameEntries(a.sources, b.sources);
    SameEntries(a.assets, b.assets);
    assert Same(ReadyAt, a, b);
  }

  // ---- One database laid over another ---------------------------------------------------------

  type Where = iset<Cell>

  /** One profile's rows, those of the second at the cells of `w`. */
  ghost function OverProfile(m: string, p: Profile, q: Profile, w: Where): Profile {
    Profile(if StatusAt(m) in w then q.status else p.status, p.provisioned,
            map id | id in p.table.Keys + q.table.Keys && (if ChunkAt(m, id) in w then id in q.table else id in p.table)
              :: if ChunkAt(m, id) in w then q.table[id] else p.table[id],
            map k | k in p.catalog.Keys + q.catalog.Keys && (if CatalogAt(m, k) in w then k in q.catalog else k in p.catalog)
              :: if CatalogAt(m, k) in w then q.catalog[k] else p.catalog[k])
  }

  /** `base`, with what `mine` holds at the cells of `w`. */
  ghost function Over(base: Db, mine: Db, w: Where): Db
    requires SameShape(base, mine)
  {
    Db(map m | m in base.profiles :: OverProfile(m, base.profiles[m], mine.profiles[m], w),
       map s | s in base.revisions.Keys + mine.revisions.Keys && (if RevisionAt(s) in w then s in mine.revisions else s in base.revisions)
         :: if RevisionAt(s) in w then mine.revisions[s] else base.revisions[s],
       map k | k in base.sources.Keys + mine.sources.Keys && (if SourceAt(k) in w then k in mine.sources else k in base.sources)
         :: if SourceAt(k) in w then mine.sources[k] else base.sources[k],
       map i | i in base.assets.Keys + mine.assets.Keys && (if AssetAt(i) in w then i in mine.assets else i in base.assets)
         :: if AssetAt(i) in w then mine.assets[i] else base.assets[i],
       (set r | r in base.refs + mine.refs && (if RefAt(r) in w then r in mine.refs else r in base.refs)),
       base.workspaces,
       if ReadyAt in w then mine.ready else base.ready)
  }

  lemma OverShape(base: Db, mine: Db, w: Where)
    requires SameShape(base, mine)
    ensures SameShape(Over(base, mine, w), base) && SameShape(Over(base, mine, w), mine)
  {
  }

  lemma OverSame(base: Db, mine: Db, w: Where, x: Cell)
    requires SameShape(base, mine)
    ensures Same(x, Over(base, mine, w), if x in w then mine else base)
  {
  }

  /** A database that agrees with the one where it was written and with the other elsewhere. */
  lemma OverIs(d: Db, base: Db, mine: Db, w: Where)
    requires SameShape(base, mine) && SameShape(d, base)
    requires forall x :: Same(x, d, if x in w then mine else base)
    ensures d == Over(base, mine, w)
  {
    var o := Over(base, mine, w);
    OverShape(base, mine, w);
    forall x ensures Same(x, d, o) {
      OverSame(base, mine, w, x);
      assert Same(x, d, if x in w then mine else base);
      SameSymmetric(x, o, if x in w then mine else base);
      SameTransitive(x, d, if x in w then mine else base, o);
    }
    SameEverywhere(d, o);
  }

  lemma SameSymmetric(x: Cell, a: Db, b: Db)
    requires Same(x, a, b)
    ensures Same(x, b, a)
  {
  }
}
