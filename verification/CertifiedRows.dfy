/** What certification makes of one profile: which document a legacy row is read as, and each
    certified document's catalog row, column by column. */
module CertifiedRows {
  import opened Text
  import opened Store
  import opened Agreement
  import opened Reconcile
  import opened PublishedRows

  // ---- Recovery ----------------------------------------------------------------------------------------

  /** `payload.get("chunking_profile") or "default"`. */
  function ProfileName(p: Payload): string {
    if p.chunking == Null || p.chunking == Str("") then "default" else Read(p.chunking, "default")
  }

  /** The path a row gives: its own column, or the payload's if that is empty. */
  function PathOf(row: ChunkRow, p: Payload): Value {
    if |row.source| > 0 then Str(row.source) else p.path
  }

  /** A shared source row under this document id has the row's own path. */
  ghost predicate Confirmed(sources: map<DocKey, Source>, row: ChunkRow, p: Payload, doc: string) {
    exists k :: k in sources && p.workspace == Str(k.workspace) && k.chunking == ProfileName(p) && k.doc == doc && Str(sources[k].path) == PathOf(row, p)
  }

  /** It names no document but has an alias for one. */
  ghost predicate Aliased(p: Payload) {
    (p.doc == Null || p.doc == Str("")) && p.alias.Str? && p.alias.s != ""
  }

  /** A readable row outside all workspaces is left out; any other is seen. */
  lemma WhoIsSeen(sources: map<DocKey, Source>, row: ChunkRow)
    ensures Recover(sources, row).Excluded? <==> !row.metadata.Malformed? && row.metadata.p.workspace == Null
  {
  }

  lemma MatchMeans(sources: map<DocKey, Source>, row: ChunkRow, p: Payload, doc: string)
    ensures MatchingSource(sources, row, p, doc).Some? <==> Confirmed(sources, row, p, doc)
    ensures MatchingSource(sources, row, p, doc).Some? ==>
              p.workspace.Str? && DocKey(p.workspace.s, ProfileName(p), doc) in sources
              && MatchingSource(sources, row, p, doc).value == sources[DocKey(p.workspace.s, ProfileName(p), doc)]
  {
    if p.workspace.Str? {
      var k := DocKey(p.workspace.s, EffectiveChunking(p), doc);
      assert EffectiveChunking(p) == ProfileName(p);
      if Confirmed(sources, row, p, doc) {
        var j :| j in sources && p.workspace == Str(j.workspace) && j.chunking == ProfileName(p) && j.doc == doc && Str(sources[j].path) == PathOf(row, p);
        assert j == k;
      }
    }
  }

  /** What the analysis sees of a row, and what is written back to it: an alias confirmed by a
      source row becomes the document id; a doubly encoded object is decoded if its document is
      confirmed and unreadable if it is not; everything else is seen as it is and left alone. */
  lemma HowARowIsSeen(sources: map<DocKey, Source>, row: ChunkRow)
    requires !row.metadata.Malformed? && row.metadata.p.workspace != Null
    ensures var p := row.metadata.p;
            var r := Recover(sources, row);
            && r.Scoped?
            && (Aliased(p) && Confirmed(sources, row, p, p.alias.s) ==>
                  var k := DocKey(p.workspace.s, ProfileName(p), p.alias.s);
                  && k in sources && r.write == Some(p.(doc := p.alias, kind := if p.kind == Null then Str(sources[k].kind) else p.kind))
                  && r.metadata == Object(r.write.value))
            && (!Aliased(p) && row.metadata.Encoded? && p.doc.Str? ==>
                  if Confirmed(sources, row, p, p.doc.s) then r == Scoped(Object(p), Some(p)) else r == Scoped(Malformed, None))
            && ((Aliased(p) && !Confirmed(sources, row, p, p.alias.s)) || (!Aliased(p) && !(row.metadata.Encoded? && p.doc.Str?)) ==>
                  r == Scoped(Object(p), None))
  {
    hide Confirmed, MatchingSource;
    var p := row.metadata.p;
    if Aliased(p) {
      MatchMeans(sources, row, p, p.alias.s);
    } else if p.doc.Str? {
      MatchMeans(sources, row, p, p.doc.s);
    }
  }

  /** The rows handed to the analysis differ from the stored ones in their metadata alone. */
  lemma WhatIsAnalysed(sources: map<DocKey, Source>, t: Table, id: RowId)
    ensures id in View(sources, t) <==> id in t && (t[id].metadata.Malformed? || t[id].metadata.p.workspace != Null)
    ensures id in View(sources, t) ==>
              View(sources, t)[id] == t[id].(metadata := if t[id].metadata.Malformed? then Malformed else Recover(sources, t[id]).metadata)
  {
    if id in t {
      WhoIsSeen(sources, t[id]);
    }
  }

  /** No row is lost or added by recovery, and only the metadata of a recovered one are rewritten. */
  lemma WhatIsWrittenBack(sources: map<DocKey, Source>, t: Table, id: RowId)
    ensures id in Rebuilt(sources, t) <==> id in t
    ensures id in t ==>
              var r := Recover(sources, t[id]);
              Rebuilt(sources, t)[id] == t[id].(metadata := if r.Scoped? && r.write.Some? then Object(r.write.value) else t[id].metadata)
  {
  }

  // ---- Groups ----------------------------------------------------------------------------------------------

  /** The row is one of the document's: it names workspace, document and profile. */
  ghost predicate Speaks(v: Table, id: RowId, k: DocKey) {
    && id in v && v[id].metadata.Object?
    && var p := v[id].metadata.p;
    && p.workspace == Str(k.workspace) && k.workspace != "" && p.doc == Str(k.doc) && k.doc != "" && ProfileName(p) == k.chunking
    && (p.chunking.Null? || p.chunking.Str?) && (p.title.Null? || p.title.Str?) && (p.kind.Null? || p.kind.Str?) && p.assets.Some?
  }

  lemma SpeaksIsMember(v: Table, id: RowId, k: DocKey)
    ensures Speaks(v, id, k) <==> Member(v, id, k)
  {
  }

  /** All rows of a document have this string as their hash; or as their root. */
  ghost predicate AllHash(v: Table, k: DocKey, h: string) {
    forall id :: Speaks(v, id, k) ==> v[id].metadata.p.hash == Str(h)
  }

  ghost predicate AllRoot(v: Table, k: DocKey, r: string) {
    forall id :: Speaks(v, id, k) ==> v[id].metadata.p.root == Str(r)
  }

  /** The path is that of the document's rows, and so are title and type, cleaned for display. */
  ghost predicate Displays(v: Table, k: DocKey, clean: Cleaner, path: string, display: Display) {
    forall id :: Speaks(v, id, k) ==>
      var p := v[id].metadata.p;
      && path == Read(PathOf(v[id], p), "")
      && display == clean(path, if p.title.Null? then None else Some(Read(p.title, "")), if p.kind.Str? then p.kind.s else "unknown")
  }

  /** The catalog row that certification owes a document, by its rows `v`, the former catalog row
      and the shared source row. */
  ghost predicate Owed(v: Table, k: DocKey, former: Option<CatalogRow>, source: Option<Source>, clean: Cleaner, row: CatalogRow) {
    && (forall h :: row.hash == Some(h) <==> AllHash(v, k, h))
    && Displays(v, k, clean, row.path, row.public.display)
    && (forall r :: AllRoot(v, k, r) ==> row.root == Some(r))
    && ((forall r :: !AllRoot(v, k, r)) ==> row.root == if source.Some? && source.value.path == row.path then source.value.root else None)
    && row.public.time == (if former.Some? && row.hash.Some? && former.value.hash == row.hash then former.value.public.time else None)
  }

  /** The document of a group, as it is published. */
  function Certified(db: Db, v: Table, model: string, g: Group, clean: Cleaner): Document
    requires model in db.profiles && Member(v, g.first, g.key)
  {
    WithTime(db, model, WithRoot(db, LegacyDocument(v, g, clean)))
  }

  function Found<K, V>(m: map<K, V>, k: K): Option<V> {
    if k in m then Some(m[k]) else None
  }

  lemma FirstSpeaks(v: Table, g: Group, id: RowId)
    requires Member(v, g.first, g.key) && GroupConsistent(v, g.key) && Member(v, id, g.key)
    ensures var p, q := v[g.first].metadata.p, v[id].metadata.p;
            RowPath(v[g.first], p) == RowPath(v[id], q) && Kind(p) == Kind(q) && p.title == q.title && !p.title.Other?
  {
  }

  lemma HashOfGroup(v: Table, g: Group, clean: Cleaner)
    requires Member(v, g.first, g.key)
    ensures forall h :: LegacyDocument(v, g, clean).hash == Some(h) <==> AllHash(v, g.key, h)
    ensures forall r :: LegacyDocument(v, g, clean).root == Some(r) <==> AllRoot(v, g.key, r)
  {
    hide GroupConsistent;
    var p := v[g.first].metadata.p;
    forall id ensures Speaks(v, id, g.key) <==> Member(v, id, g.key) {
      SpeaksIsMember(v, id, g.key);
    }
    assert Speaks(v, g.first, g.key);
    assert SameHash(v, g.key, p.hash) <==> forall id :: Speaks(v, id, g.key) ==> v[id].metadata.p.hash == p.hash;
    assert SameRoot(v, g.key, p.root) <==> forall id :: Speaks(v, id, g.key) ==> v[id].metadata.p.root == p.root;
  }

  lemma GroupDisplays(v: Table, g: Group, clean: Cleaner)
    requires Member(v, g.first, g.key) && GroupConsistent(v, g.key)
    ensures Displays(v, g.key, clean, LegacyDocument(v, g, clean).path, LegacyDocument(v, g, clean).display)
  {
    hide GroupConsistent, Member, LegacyDocument, PathOf;
    forall id | Speaks(v, id, g.key)
      ensures var p := v[id].metadata.p;
              var d := LegacyDocument(v, g, clean);
              && d.path == Read(PathOf(v[id], p), "")
              && d.display == clean(d.path, if p.title.Null? then None else Some(Read(p.title, "")), if p.kind.Str? then p.kind.s else "unknown")
    {
      SpeaksIsMember(v, id, g.key);
      DisplayOfGroup(v, g, clean, id);
    }
  }

  lemma OwedToGroup(db: Db, v: Table, model: string, g: Group, clean: Cleaner, row: CatalogRow)
    requires model in db.profiles && Member(v, g.first, g.key) && GroupConsistent(v, g.key)
    requires ShowsAs(row, Certified(db, v, model, g, clean), Certified(db, v, model, g, clean).time, row.public.count)
    ensures Owed(v, g.key, Found(db.profiles[model].catalog, g.key), Found(db.sources, g.key), clean, row)
  {
    hide GroupConsistent, Member, LegacyDocument, AllHash, AllRoot, Displays;
    var doc := LegacyDocument(v, g, clean);
    HashOfGroup(v, g, clean);
    GroupDisplays(v, g, clean);
    SpeaksIsMember(v, g.first, g.key);
    DisplayOfGroup(v, g, clean, g.first);
    if doc.root.Some? {
      assert AllRoot(v, g.key, doc.root.value);
    }
  }

  lemma DisplayOfGroup(v: Table, g: Group, clean: Cleaner, id: RowId)
    requires Member(v, g.first, g.key) && GroupConsistent(v, g.key) && Member(v, id, g.key)
    ensures var d := LegacyDocument(v, g, clean);
            var p := v[id].metadata.p;
            && d.key == g.key && d.time == None && d.path == Read(PathOf(v[id], p), "")
            && d.kind == (if p.kind.Str? then p.kind.s else "unknown")
            && d.display == clean(d.path, if p.title.Null? then None else Some(Read(p.title, "")), d.kind)
  {
    hide GroupConsistent, SameHash, SameRoot;
    FirstSpeaks(v, g, id);
  }

  // ---- What the analysis accepts -----------------------------------------------------------------------------

  ghost predicate Readable(m: Metadata) {
    && m.Object? && m.p.workspace.Str? && m.p.workspace.s != "" && m.p.doc.Str? && m.p.doc.s != "" && m.p.assets.Some?
    && (m.p.chunking.Null? || m.p.chunking.Str?) && (m.p.title.Null? || m.p.title.Str?) && (m.p.kind.Null? || m.p.kind.Str?)
  }

  /** It is stored as a list or as an object. */
  ghost predicate Nested(v: Value) {
    v.Other? && ("[" <= v.text || "{" <= v.text)
  }

  /** Two rows of a document name two chunks, and agree on path, title and type. */
  ghost predicate Alike(v: Table, a: RowId, b: RowId)
    requires a in v && b in v && v[a].metadata.Object? && v[b].metadata.Object?
  {
    var p, q := v[a].metadata.p, v[b].metadata.p;
    && PathOf(v[a], p) == PathOf(v[b], q) && p.title == q.title
    && (if p.kind.Str? then p.kind.s else "unknown") == (if q.kind.Str? then q.kind.s else "unknown")
    && (a != b ==> (match p.chunkId case Some(c) => c case None => IdText(a)) != (match q.chunkId case Some(c) => c case None => IdText(b)))
  }

  ghost predicate AllAlike(v: Table, k: DocKey) {
    forall a, b :: Speaks(v, a, k) && Speaks(v, b, k) ==> Alike(v, a, b)
  }

  /** A hash or a root is not a list or an object, and if it is shared by all rows a string or null. */
  ghost predicate AllPlain(v: Table, k: DocKey) {
    forall a :: Speaks(v, a, k) ==>
      var p := v[a].metadata.p;
      && PathOf(v[a], p).Str? && PathOf(v[a], p).s != "" && !Nested(p.hash) && !Nested(p.root)
      && (p.hash.Other? ==> exists b :: Speaks(v, b, k) && v[b].metadata.p.hash != p.hash)
      && (p.root.Other? ==> exists b :: Speaks(v, b, k) && v[b].metadata.p.root != p.root)
  }

  /** What makes the rows of a document one publication. */
  ghost predicate OfOnePiece(v: Table, k: DocKey) {
    AllAlike(v, k) && AllPlain(v, k)
  }

  lemma SharedMeans(v: Table, k: DocKey, x: Value)
    ensures SameHash(v, k, x) <==> !exists b :: Speaks(v, b, k) && v[b].metadata.p.hash != x
    ensures SameRoot(v, k, x) <==> !exists b :: Speaks(v, b, k) && v[b].metadata.p.root != x
  {
    hide Speaks;
    forall id ensures (Speaks(v, id, k) <==> Member(v, id, k)) && (Speaks(v, id, k) ==> v[id].metadata.Object?) {
      SpeaksIsMember(v, id, k);
    }
  }

  lemma AgreeingIsAlike(v: Table, k: DocKey)
    ensures RowsAgree(v, k) <==> AllAlike(v, k)
  {
    hide Speaks;
    forall id ensures (Speaks(v, id, k) <==> Member(v, id, k)) && (Speaks(v, id, k) ==> id in v && v[id].metadata.Object?) {
      SpeaksIsMember(v, id, k);
    }
  }

  lemma SoundIsPlain(v: Table, k: DocKey)
    ensures RowsSound(v, k) <==> AllPlain(v, k)
  {
    hide Speaks, SameHash, SameRoot;
    forall id ensures (Speaks(v, id, k) <==> Member(v, id, k)) && (Speaks(v, id, k) ==> id in v && v[id].metadata.Object?) {
      SpeaksIsMember(v, id, k);
    }
    forall x ensures (SameHash(v, k, x) <==> !exists b :: Speaks(v, b, k) && v[b].metadata.p.hash != x)
               && (SameRoot(v, k, x) <==> !exists b :: Speaks(v, b, k) && v[b].metadata.p.root != x)
    {
      SharedMeans(v, k, x);
    }
  }

  lemma OnePiece(v: Table, k: DocKey)
    ensures GroupConsistent(v, k) <==> OfOnePiece(v, k)
  {
    hide RowsAgree, AllAlike, RowsSound, AllPlain;
    AgreeingIsAlike(v, k);
    SoundIsPlain(v, k);
  }

  lemma AllAreReadable(v: Table)
    ensures Clean(v) <==> (forall id :: id in v ==> Readable(v[id].metadata)) && forall k :: (exists id :: Speaks(v, id, k)) ==> OfOnePiece(v, k)
  {
    hide GroupConsistent, OfOnePiece, Speaks, GroupKeys;
    forall k ensures (GroupConsistent(v, k) <==> OfOnePiece(v, k)) && (k in GroupKeys(v) <==> exists id :: Speaks(v, id, k)) {
      OnePiece(v, k);
      WhoSpeaks(v, k);
    }
  }

  /** A profile is certified if and only if each of its rows is readable, the rows of each document are
      of one piece, its workspace is known, and its assets are there and are its own. */
  lemma WhatIsCertified(db: Db, model: string)
    requires model in db.profiles
    ensures var v := View(db.sources, db.profiles[model].table);
            Certifiable(db, model) <==>
              && (forall id :: id in v ==> Readable(v[id].metadata))
              && (forall k :: (exists id :: Speaks(v, id, k)) ==> OfOnePiece(v, k))
              && (forall id, k :: Speaks(v, id, k) ==>
                    && k.workspace in db.workspaces
                    && forall a :: a in v[id].metadata.p.assets.value ==> a in db.assets && db.assets[a].key == k)
  {
    hide View, Clean, OfOnePiece, Readable, GroupKeys, AssetIds;
    var v := View(db.sources, db.profiles[model].table);
    AllAreReadable(v);
    forall k ensures k in GroupKeys(v) <==> exists id :: Speaks(v, id, k) {
      WhoSpeaks(v, k);
    }
    forall k ensures forall a :: a in AssetIds(v, k) <==> exists id :: Speaks(v, id, k) && a in v[id].metadata.p.assets.value {
      AssetsOfGroup(v, k);
    }
  }

  // ---- The rewritten catalog ---------------------------------------------------------------------------------

  /** What one group's publication does to catalog and sources. */
  lemma OneGroup(db: Db, v: Table, model: string, g: Group, clean: Cleaner, now: int)
    requires model in db.profiles && Member(v, g.first, g.key)
    ensures var d := ApplyGroup(db, v, model, g, clean, now);
            var doc := Certified(db, v, model, g, clean);
            && d.profiles[model].table == db.profiles[model].table && doc.key == g.key
            && d.profiles[model].catalog == PublishRow(db.profiles[model].catalog, g.key, NewRow(db.profiles[model].table, doc, doc.time, now))
            && d.sources == (if g.key in db.sources then db.sources else db.sources[g.key := Source(doc.path, doc.root, doc.kind, doc.hash.Or(""))])
            && d.assets == db.assets
            && (forall x :: x in d.refs <==> if x.model == model && x.key == g.key then x.asset in AssetIds(v, g.key) else x in db.refs)
  {
    hide LegacyDocument, AssetIds, NewRow, PublishRow;
    var doc := Certified(db, v, model, g, clean);
    KeyOfGroup(v, g, clean);
    PublishEffect(InsertSource(db, doc, true), model, doc, doc.time, now);
    MetadataShares(InsertSource(db, doc, true), model, doc, doc.time, now);
  }

  lemma KeyOfGroup(v: Table, g: Group, clean: Cleaner)
    requires Member(v, g.first, g.key)
    ensures LegacyDocument(v, g, clean).key == g.key
  {
  }

  lemma MetadataShares(db: Db, model: string, doc: Document, time: Option<int>, now: int)
    requires model in db.profiles
    ensures var d := PublishMetadata(db, model, doc, time, now);
            d.sources == db.sources && d.assets == db.assets && d.refs == db.refs
  {
  }

  predicate Unrepeated(groups: seq<Group>) {
    forall i, j :: 0 <= i < j < |groups| ==> groups[i].key != groups[j].key
  }

  /** How far the groups have been applied. */
  ghost predicate Applied(db: Db, d: Db, v: Table, model: string, groups: seq<Group>, clean: Cleaner, now: int)
    requires model in db.profiles && Members(v, groups)
  {
    && model in d.profiles && d.profiles[model].table == db.profiles[model].table && d.assets == db.assets
    && (forall i :: 0 <= i < |groups| ==> InPlace(db, d, v, model, groups[i], clean, now))
    && (forall k :: (forall i :: 0 <= i < |groups| ==> groups[i].key != k) ==> Untouched(db, d, model, k))
  }

  ghost predicate InPlace(db: Db, d: Db, v: Table, model: string, g: Group, clean: Cleaner, now: int)
    requires model in db.profiles && model in d.profiles && Member(v, g.first, g.key)
  {
    var doc, c := Certified(db, v, model, g, clean), db.profiles[model].catalog;
    var row := NewRow(db.profiles[model].table, doc, doc.time, now);
    && g.key in d.profiles[model].catalog && d.profiles[model].catalog[g.key] == (if g.key in c && SamePublication(c[g.key], row) then c[g.key] else row)
    && g.key in d.sources
    && d.sources[g.key] == (if g.key in db.sources then db.sources[g.key] else Source(doc.path, doc.root, doc.kind, doc.hash.Or("")))
    && (forall a :: Ref(model, g.key, a) in d.refs <==> a in AssetIds(v, g.key))
    && (forall m, a :: m != model ==> (Ref(m, g.key, a) in d.refs <==> Ref(m, g.key, a) in db.refs))
  }

  ghost predicate Untouched(db: Db, d: Db, model: string, k: DocKey)
    requires model in db.profiles && model in d.profiles
  {
    && Found(d.profiles[model].catalog, k) == Found(db.profiles[model].catalog, k) && Found(d.sources, k) == Found(db.sources, k)
    && forall m, a :: Ref(m, k, a) in d.refs <==> Ref(m, k, a) in db.refs
  }

  /** The publication of another group leaves this one in place, and what neither touches alone. */
  lemma OthersStayInPlace(db: Db, d: Db, e: Db, v: Table, model: string, g: Group, clean: Cleaner, now: int)
    requires model in db.profiles && model in d.profiles && model in e.profiles && Member(v, g.first, g.key)
    requires InPlace(db, d, v, model, g, clean, now) && Untouched(d, e, model, g.key)
    ensures InPlace(db, e, v, model, g, clean, now)
  {
    hide Certified, NewRow, SamePublication, AssetIds, Member;
  }

  lemma UntouchedTwice(db: Db, d: Db, e: Db, model: string, k: DocKey)
    requires model in db.profiles && model in d.profiles && model in e.profiles
    requires Untouched(db, d, model, k) && Untouched(d, e, model, k)
    ensures Untouched(db, e, model, k)
  {
  }

  lemma OneGroupTouches(d: Db, v: Table, model: string, g: Group, clean: Cleaner, now: int, k: DocKey)
    requires model in d.profiles && Member(v, g.first, g.key) && k != g.key
    ensures Untouched(d, ApplyGroup(d, v, model, g, clean, now), model, k)
  {
    hide Certified, NewRow, AssetIds, Member, ApplyGroup;
    OneGroup(d, v, model, g, clean, now);
  }

  lemma OneGroupInPlace(db: Db, d: Db, v: Table, model: string, g: Group, clean: Cleaner, now: int)
    requires model in db.profiles && model in d.profiles && Member(v, g.first, g.key)
    requires Untouched(db, d, model, g.key) && d.profiles[model].table == db.profiles[model].table
    ensures InPlace(db, ApplyGroup(d, v, model, g, clean, now), v, model, g, clean, now)
  {
    hide Certified, NewRow, AssetIds, Member, ApplyGroup, SamePublication;
    OneGroup(d, v, model, g, clean, now);
    SameDocument(db, d, v, model, g, clean);
  }

  lemma OneMoreApplied(db: Db, d: Db, v: Table, model: string, groups: seq<Group>, clean: Cleaner, now: int)
    requires model in db.profiles && groups != [] && Members(v, groups) && Unrepeated(groups)
    requires Applied(db, d, v, model, groups[..|groups| - 1], clean, now)
    ensures Applied(db, ApplyGroup(d, v, model, groups[|groups| - 1], clean, now), v, model, groups, clean, now)
  {
    hide ApplyGroup, Member, InPlace, Untouched;
    var n := |groups| - 1;
    var g, e := groups[n], ApplyGroup(d, v, model, groups[n], clean, now);
    OneGroup(d, v, model, g, clean, now);
    OneGroupInPlace(db, d, v, model, g, clean, now);
    forall i | 0 <= i < n ensures InPlace(db, e, v, model, groups[i], clean, now) {
      assert groups[..n][i] == groups[i];
      OneGroupTouches(d, v, model, g, clean, now, groups[i].key);
      OthersStayInPlace(db, d, e, v, model, groups[i], clean, now);
    }
    forall k | forall i :: 0 <= i < |groups| ==> groups[i].key != k ensures Untouched(db, e, model, k) {
      assert forall i :: 0 <= i < n ==> groups[..n][i].key != k;
      OneGroupTouches(d, v, model, g, clean, now, k);
      UntouchedTwice(db, d, e, model, k);
    }
  }

  lemma SameDocument(db: Db, d: Db, v: Table, model: string, g: Group, clean: Cleaner)
    requires model in db.profiles && model in d.profiles && Member(v, g.first, g.key) && Untouched(db, d, model, g.key)
    ensures Certified(d, v, model, g, clean) == Certified(db, v, model, g, clean)
  {
    hide LegacyDocument;
    KeyOfGroup(v, g, clean);
  }

  lemma {:induction false} AllApplied(db: Db, v: Table, model: string, groups: seq<Group>, clean: Cleaner, now: int)
    requires model in db.profiles && Members(v, groups) && Unrepeated(groups)
    ensures Applied(db, ApplyGroups(db, v, model, groups, clean, now), v, model, groups, clean, now)
  {
    hide ApplyGroup, Applied, Member;
    if groups == [] {
      NothingApplied(db, v, model, clean, now);
    } else {
      var n := |groups| - 1;
      AllApplied(db, v, model, groups[..n], clean, now);
      OneMoreApplied(db, ApplyGroups(db, v, model, groups[..n], clean, now), v, model, groups, clean, now);
    }
  }

  lemma NothingApplied(db: Db, v: Table, model: string, clean: Cleaner, now: int)
    requires model in db.profiles
    ensures Applied(db, db, v, model, [], clean, now)
  {
  }

  lemma {:induction false} DropsLeave(db: Db, model: string, ks: seq<DocKey>)
    requires model in db.profiles
    ensures var d := DropRows(db, model, ks);
            && d.sources == db.sources && d.assets == db.assets && d.profiles[model].table == db.profiles[model].table
            && (forall k :: Found(d.profiles[model].catalog, k) == if k in ks then None else Found(db.profiles[model].catalog, k))
            && (forall x :: x in d.refs <==> x in db.refs && !(x.model == model && x.key in ks))
  {
    if ks != [] {
      var n := |ks| - 1;
      DropsLeave(db, model, ks[..n]);
      assert ks == ks[..n] + [ks[n]];
    }
  }

  lemma {:induction false} KeyOfSome(groups: seq<Group>, k: DocKey) returns (i: nat)
    requires k in GroupKeySet(groups)
    ensures i < |groups| && groups[i].key == k
  {
    var n := |groups| - 1;
    if groups[n].key == k {
      i := n;
    } else {
      i := KeyOfSome(groups[..n], k);
    }
  }

  lemma {:induction false} KeyIsThere(groups: seq<Group>, i: nat)
    requires i < |groups|
    ensures groups[i].key in GroupKeySet(groups)
  {
    var n := |groups| - 1;
    if i < n {
      KeyIsThere(groups[..n], i);
    }
  }

  /** What is certified for a document: its catalog row, its source row, its references. */
  ghost predicate CertifiedAs(db: Db, d: Db, v: Table, model: string, k: DocKey, clean: Cleaner, now: int)
    requires model in db.profiles && model in d.profiles
  {
    var c, e, u := db.profiles[model].catalog, d.profiles[model].catalog, d.profiles[model].table;
    && k in e && Owed(v, k, Found(c, k), Found(db.sources, k), clean, e[k])
    && e[k].public.count == |set id | id in u && FiledUnder(u[id].metadata, k)|
    && (if k in c && SameColumns(c[k], e[k]) then e[k].updatedAt == c[k].updatedAt else e[k].updatedAt == now)
    && k in d.sources
    && (if k in db.sources then d.sources[k] == db.sources[k]
        else d.sources[k].path == e[k].path && d.sources[k].root == e[k].root
             && d.sources[k].hash == (match e[k].hash case Some(h) => h case None => "")
             && forall id :: Speaks(v, id, k) ==>
                  d.sources[k].kind == if v[id].metadata.p.kind.Str? then v[id].metadata.p.kind.s else "unknown")
    && (forall a :: Ref(model, k, a) in d.refs <==> exists id :: Speaks(v, id, k) && a in v[id].metadata.p.assets.value)
    && (forall m, a :: m != model ==> (Ref(m, k, a) in d.refs <==> Ref(m, k, a) in db.refs))
  }

  lemma InPlaceIsCertified(db: Db, b: Db, d: Db, v: Table, model: string, g: Group, clean: Cleaner, now: int)
    requires model in db.profiles && model in b.profiles && model in d.profiles && Member(v, g.first, g.key) && GroupConsistent(v, g.key)
    requires b.profiles[model].catalog == db.profiles[model].catalog && b.sources == db.sources && b.refs == db.refs
    requires InPlace(b, d, v, model, g, clean, now) && d.profiles[model].table == b.profiles[model].table
    ensures CertifiedAs(db, d, v, model, g.key, clean, now)
  {
    hide LegacyDocument, GroupConsistent, Member, AssetIds, Owed, FiledUnder, GroupCount;
    var k, doc, u := g.key, Certified(b, v, model, g, clean), d.profiles[model].table;
    var row := d.profiles[model].catalog[k];
    KeyOfGroup(v, g, clean);
    assert doc == Certified(db, v, model, g, clean);
    OwedToGroup(db, v, model, g, clean, row);
    CountIs(u, k);
    AssetsOfGroup(v, k);
    forall id | Speaks(v, id, k) ensures doc.kind == if v[id].metadata.p.kind.Str? then v[id].metadata.p.kind.s else "unknown" {
      SpeaksIsMember(v, id, k);
      DisplayOfGroup(v, g, clean, id);
    }
  }

  lemma CountIs(u: Table, k: DocKey)
    ensures GroupCount(u, k) == |set id | id in u && FiledUnder(u[id].metadata, k)|
  {
    hide FiledUnder, SqlGroup;
    forall id | id in u ensures FiledUnder(u[id].metadata, k) <==> InGroup(u, id, k) {
      FiledIsGrouped(u[id].metadata, k);
    }
    assert GroupIds(u, k) == set id | id in u && FiledUnder(u[id].metadata, k);
  }

  lemma AssetsOfGroup(v: Table, k: DocKey)
    ensures forall a :: a in AssetIds(v, k) <==> exists id :: Speaks(v, id, k) && a in v[id].metadata.p.assets.value
  {
    forall id ensures Speaks(v, id, k) <==> Member(v, id, k) {
      SpeaksIsMember(v, id, k);
    }
  }

  /** Certification of a profile, document by document: each document that has rows is certified
      as its rows say; of the others, those that claim chunks go with their references and
      the rest stay. */
  lemma CertifiedDocuments(db: Db, model: string, plan: Plan, clean: Cleaner, now: int, k: DocKey)
    requires model in db.profiles && PlanFor(db, model, plan) && Certifiable(db, model)
    ensures var v := View(db.sources, db.profiles[model].table);
            var d := ReconcileProfile(db, model, plan, clean, now);
            var c, e := db.profiles[model].catalog, d.profiles[model].catalog;
            && ((exists id :: Speaks(v, id, k)) ==> CertifiedAs(db, d, v, model, k, clean, now))
            && (!(exists id :: Speaks(v, id, k)) ==>
                  && Found(e, k) == (if k in c && c[k].public.count == 0 then Some(c[k]) else None)
                  && Found(d.sources, k) == Found(db.sources, k)
                  && forall m, a :: Ref(m, k, a) in d.refs <==> Ref(m, k, a) in db.refs && !(m == model && k in c && c[k].public.count > 0))
  {
    hide View, Member, ApplyGroups, DropRows, Applied, InPlace, CertifiedAs, Rebuilt, Clean;
    var v, p := View(db.sources, db.profiles[model].table), db.profiles[model];
    var b := WithProfile(db, model, p.(table := Rebuilt(db.sources, p.table)));
    var f := ApplyGroups(b, v, model, plan.groups, clean, now);
    AllApplied(b, v, model, plan.groups, clean, now);
    DropsLeave(f, model, plan.stale);
    WhoSpeaks(v, k);
    StaleOnes(db, model, plan, v, k);
    assert ReconcileProfile(db, model, plan, clean, now) == DropRows(f, model, plan.stale);
    if k in GroupKeys(v) {
      var i := KeyOfSome(plan.groups, k);
      CleanGroups(v, k);
      CertifiedOne(db, b, f, DropRows(f, model, plan.stale), v, model, plan.groups, i, clean, now, plan.stale);
    } else {
      forall i | 0 <= i < |plan.groups| ensures plan.groups[i].key != k {
        KeyIsThere(plan.groups, i);
      }
      LeftAlone(b, f, v, model, plan.groups, clean, now, k);
    }
  }

  lemma WhoSpeaks(v: Table, k: DocKey)
    ensures k in GroupKeys(v) <==> exists id :: Speaks(v, id, k)
  {
    forall id ensures Speaks(v, id, k) <==> Member(v, id, k) {
      SpeaksIsMember(v, id, k);
    }
    if k in GroupKeys(v) {
      var id :| id in v && WellFormed(v[id].metadata) && FileKey(v[id].metadata.p) == k;
      assert Member(v, id, k);
    }
  }

  lemma StaleOnes(db: Db, model: string, plan: Plan, v: Table, k: DocKey)
    requires model in db.profiles && PlanFor(db, model, plan) && v == View(db.sources, db.profiles[model].table)
    ensures k in plan.stale <==> k in db.profiles[model].catalog && k !in GroupKeys(v) && db.profiles[model].catalog[k].public.count > 0
  {
    hide View, GroupKeys, Members, GroupKeySet;
    var stale := Stale(db.profiles[model].catalog, v);
    assert (set x | x in plan.stale) == stale;
    assert k in plan.stale <==> k in stale;
  }

  lemma CleanGroups(v: Table, k: DocKey)
    requires Clean(v) && k in GroupKeys(v)
    ensures GroupConsistent(v, k)
  {
    hide GroupKeys, GroupConsistent;
  }

  lemma CertifiedOne(db: Db, b: Db, f: Db, d: Db, v: Table, model: string, groups: seq<Group>, i: nat, clean: Cleaner, now: int, stale: seq<DocKey>)
    requires model in db.profiles && model in b.profiles && model in f.profiles && Members(v, groups) && i < |groups|
    requires b.profiles[model].catalog == db.profiles[model].catalog && b.sources == db.sources && b.refs == db.refs
    requires Applied(b, f, v, model, groups, clean, now) && GroupConsistent(v, groups[i].key) && groups[i].key !in stale
    requires d == DropRows(f, model, stale)
    ensures CertifiedAs(db, d, v, model, groups[i].key, clean, now)
  {
    hide Member, GroupConsistent, CertifiedAs, DropRows, Certified, NewRow, SamePublication, AssetIds;
    DropsLeave(f, model, stale);
    var k := groups[i].key;
    assert InPlace(b, f, v, model, groups[i], clean, now);
    assert Found(d.profiles[model].catalog, k) == Found(f.profiles[model].catalog, k);
    assert InPlace(b, d, v, model, groups[i], clean, now);
    InPlaceIsCertified(db, b, d, v, model, groups[i], clean, now);
  }

  lemma LeftAlone(b: Db, f: Db, v: Table, model: string, groups: seq<Group>, clean: Cleaner, now: int, k: DocKey)
    requires model in b.profiles && Members(v, groups) && Applied(b, f, v, model, groups, clean, now)
    requires forall i :: 0 <= i < |groups| ==> groups[i].key != k
    ensures Untouched(b, f, model, k)
  {
    hide InPlace, Untouched, Member;
  }
}
