/** The tables behind document publication, and the effect each SQL statement of the
    publication code has on them.  A table is a map from primary key to row. */
module Store {
  import opened Text
  import opened ChunkIdentity

  // ---- Keys --------------------------------------------------------------------

  datatype DocKey = DocKey(workspace: string, chunking: string, doc: string)

  /** One public list: the documents of a workspace under a model and a chunking profile. */
  datatype Scope = Scope(workspace: string, model: string, chunking: string)

  function ScopeOf(model: string, k: DocKey): Scope {
    Scope(k.workspace, model, k.chunking)
  }

  predicate InScope(k: DocKey, scope: Scope) {
    k.workspace == scope.workspace && k.chunking == scope.chunking
  }

  /** A chunk row's UUID: generated by hashing a name, or inherited from older writers. */
  datatype RowId = Legacy(text: string) | Uuid5(name: string)

  function IdText(id: RowId): string {
    match id
    case Legacy(text) => text
    case Uuid5(name) => "uuid5(" + name + ")"
  }

  /** The text of an id tells it from every other one of its kind. */
  lemma IdTextTells(a: RowId, b: RowId)
    requires a.Legacy? == b.Legacy? && IdText(a) == IdText(b)
    ensures a == b
  {
    if a.Uuid5? {
      assert IdText(a)[6..|IdText(a)| - 1] == a.name && IdText(b)[6..|IdText(b)| - 1] == b.name;
    }
  }

  // ---- Chunk metadata ----------------------------------------------------------

  /** A JSON member as the code looks at it; a missing member reads as null. */
  datatype Value = Null | Str(s: string) | Other(text: string)

  /** A nonempty string. */
  predicate IsText(v: Value) {
    v.Str? && v.s != ""
  }

  /** `metadata->>'key'`. */
  function SqlText(v: Value): Option<string> {
    match v
    case Null => None
    case Str(s) => Some(s)
    case Other(text) => Some(text)
  }

  datatype Payload = Payload(
    workspace: Value, doc: Value, alias: Value, chunking: Value, chunkId: Option<string>,
    title: Value, kind: Value, path: Value, hash: Value, root: Value,
    assets: Option<set<string>>)   // None: not a list of strings

  /** The jsonb column: an object, an object encoded once more as a JSON string, or
      neither. SQL sees members of the first form only. */
  datatype Metadata = Object(p: Payload) | Encoded(p: Payload) | Malformed

  predicate Unscoped(m: Metadata) {
    !m.Malformed? && m.p.workspace.Null?
  }

  /** The document a row counts for in SQL: workspace, COALESCE(chunking, 'default'), doc id. */
  function SqlGroup(m: Metadata): Option<DocKey> {
    match m
    case Object(p) =>
      (match (SqlText(p.workspace), SqlText(p.doc))
       case (Some(w), Some(d)) => Some(DocKey(w, SqlText(p.chunking).Or(DEFAULT_PROFILE), d))
       case _ => None)
    case _ => None
  }

  // ---- Chunk tables ------------------------------------------------------------

  type Vector = seq<real>
  datatype ChunkRow = ChunkRow(metadata: Metadata, content: string, vector: Vector, source: string)
  type Table = map<RowId, ChunkRow>

  predicate InGroup(t: Table, id: RowId, k: DocKey) {
    id in t && SqlGroup(t[id].metadata) == Some(k)
  }

  function GroupIds(t: Table, k: DocKey): set<RowId> {
    set id | id in t && InGroup(t, id, k)
  }

  function GroupCount(t: Table, k: DocKey): nat {
    |GroupIds(t, k)|
  }

  function DeleteGroups(t: Table, ks: set<DocKey>): Table {
    map id | id in t && !(SqlGroup(t[id].metadata).Some? && SqlGroup(t[id].metadata).value in ks) :: t[id]
  }

  /** A chunk handed to the store for publication. */
  datatype Item = Item(chunkId: string, payload: Payload, content: string, vector: Vector)

  function ItemId(i: Item): RowId {
    Uuid5(RowName(SqlText(i.payload.workspace).Or("local"), i.chunkId))
  }

  function ItemRow(i: Item): ChunkRow {
    ChunkRow(Object(i.payload.(chunkId := Some(i.chunkId))), i.content, i.vector,
             SqlText(i.payload.path).Or(""))
  }

  /** INSERT ... ON CONFLICT (id) DO UPDATE, item after item. */
  function Upsert(t: Table, items: seq<Item>): Table {
    if items == [] then t
    else
      var last := items[|items| - 1];
      Upsert(t, items[..|items| - 1])[ItemId(last) := ItemRow(last)]
  }

  /** A document's rows after its chunks have been replaced. */
  function ReplacedTable(t: Table, k: DocKey, items: seq<Item>): Table {
    Upsert(DeleteGroups(t, {k}), items)
  }

  // ---- Catalog, shared rows and the whole database -------------------------------

  datatype Display = Display(title: string, fileName: string, kind: string)

  /** What a list response shows of a document, apart from its id. */
  datatype Public = Public(display: Display, time: Option<int>, count: nat)

  datatype CatalogRow = CatalogRow(
    public: Public, hash: Option<string>, path: string, root: Option<string>, updatedAt: int)
  type Catalog = map<DocKey, CatalogRow>

  datatype Status = Draft | Warming | Ready | Archived
  datatype Profile = Profile(status: Status, provisioned: bool, table: Table, catalog: Catalog)

  datatype Source = Source(path: string, root: Option<string>, kind: string, hash: string)
  datatype Asset = Asset(key: DocKey, info: string)
  datatype Ref = Ref(model: string, key: DocKey, asset: string)

  datatype Db = Db(
    profiles: map<string, Profile>,
    revisions: map<Scope, nat>,
    sources: map<DocKey, Source>,
    assets: map<string, Asset>,
    refs: set<Ref>,
    workspaces: set<string>,
    ready: bool)

  /** A document as a writer publishes it. `display` is the result of the display clean-up,
      which is not part of this model. */
  datatype Document = Document(
    key: DocKey, display: Display, kind: string, hash: Option<string>,
    path: string, root: Option<string>, time: Option<int>)

  datatype AssetRecord = AssetRecord(id: string, info: string)

  function Revision(db: Db, scope: Scope): nat {
    if scope in db.revisions then db.revisions[scope] else 0
  }

  function PublicRows(db: Db, scope: Scope): map<DocKey, Public> {
    if scope.model in db.profiles then
      var catalog := db.profiles[scope.model].catalog;
      map k | k in catalog && InScope(k, scope) :: catalog[k].public
    else map[]
  }

  predicate Published(db: Db, k: DocKey) {
    exists m :: m in db.profiles && k in db.profiles[m].catalog
  }

  predicate Referenced(db: Db, asset: string) {
    exists r :: r in db.refs && r.asset == asset
  }

  // ---- Statements ----------------------------------------------------------------

  function WithProfile(db: Db, model: string, p: Profile): Db {
    db.(profiles := db.profiles[model := p])
  }

  function Bump(db: Db, scope: Scope): Db {
    db.(revisions := db.revisions[scope := Revision(db, scope) + 1])
  }

  predicate SamePublication(a: CatalogRow, b: CatalogRow) {
    a.(updatedAt := b.updatedAt) == b
  }

  function NewRow(t: Table, doc: Document, time: Option<int>, now: int): CatalogRow {
    CatalogRow(Public(doc.display, time, GroupCount(t, doc.key)), doc.hash, doc.path, doc.root, now)
  }

  /** The upsert of `publish_metadata`: a row is written only when it differs. */
  function PublishRow(c: Catalog, k: DocKey, row: CatalogRow): Catalog {
    if k in c && SamePublication(c[k], row) then c else c[k := row]
  }

  predicate PublicChanges(c: Catalog, k: DocKey, row: CatalogRow) {
    k in c ==> c[k].public != row.public
  }

  /** `publish_metadata`: the list revision rises exactly when the public part changes. */
  function PublishMetadata(db: Db, model: string, doc: Document, time: Option<int>, now: int): (r: Db)
    requires model in db.profiles
    ensures r.profiles.Keys == db.profiles.Keys
  {
    var p := db.profiles[model];
    var row := NewRow(p.table, doc, time, now);
    var written := WithProfile(db, model, p.(catalog := PublishRow(p.catalog, doc.key, row)));
    if PublicChanges(p.catalog, doc.key, row) then Bump(written, ScopeOf(model, doc.key)) else written
  }

  function InsertSource(db: Db, doc: Document, keepExisting: bool): Db {
    if keepExisting && doc.key in db.sources then db
    else db.(sources := db.sources[doc.key := Source(doc.path, doc.root, doc.kind, doc.hash.Or(""))])
  }

  function DeleteRefs(db: Db, model: string, ks: set<DocKey>): Db {
    db.(refs := set r | r in db.refs && !(r.model == model && r.key in ks))
  }

  function InsertAsset(db: Db, model: string, k: DocKey, a: AssetRecord): Db {
    db.(assets := if a.id in db.assets then db.assets else db.assets[a.id := Asset(k, a.info)],
        refs := db.refs + {Ref(model, k, a.id)})
  }

  function InsertAssets(db: Db, model: string, k: DocKey, assets: seq<AssetRecord>): (r: Db)
    ensures r.profiles == db.profiles
  {
    if assets == [] then db
    else InsertAsset(InsertAssets(db, model, k, assets[..|assets| - 1]), model, k, assets[|assets| - 1])
  }

  function DropOrphanAssets(db: Db, k: DocKey): Db {
    db.(assets := map a | a in db.assets && !(db.assets[a].key == k && !Referenced(db, a)) :: db.assets[a])
  }

  /** Deleting a source row cascades to its assets and to their references. */
  function DropOrphanSource(db: Db, k: DocKey): Db {
    if Published(db, k) || k !in db.sources then db
    else
      var gone := set a | a in db.assets && db.assets[a].key == k;
      db.(sources := db.sources - {k}, assets := db.assets - gone,
          refs := set r | r in db.refs && r.asset !in gone)
  }

  /** `_prune_shared_document`. */
  function Prune(db: Db, k: DocKey): Db {
    if db.ready then DropOrphanSource(DropOrphanAssets(db, k), k) else db
  }

  function PruneAll(db: Db, ks: seq<DocKey>): (r: Db)
    ensures r.profiles == db.profiles
  {
    if ks == [] then db else Prune(PruneAll(db, ks[..|ks| - 1]), ks[|ks| - 1])
  }

  // ---- Transactions --------------------------------------------------------------

  datatype Outcome = Written | Unchanged | NotReady

  /** The guards at the head of `_replace_on_connection`. */
  function ReplaceOutcome(db: Db, model: string, doc: Document, preserve: bool): Outcome
    requires model in db.profiles
  {
    var p := db.profiles[model];
    if preserve then Written
    else if p.status != Ready then NotReady
    else if doc.hash.Some? && doc.key in p.catalog && p.catalog[doc.key].hash == doc.hash then Unchanged
    else Written
  }

  /** Its body once the guards have passed, up to and including the catalog row. */
  function ReplaceRows(db: Db, model: string, doc: Document, items: seq<Item>, preserve: bool, now: int): (r: Db)
    requires model in db.profiles
    ensures model in r.profiles
  {
    var p := db.profiles[model];
    var d := InsertSource(WithProfile(db, model, p.(table := ReplacedTable(p.table, doc.key, items))), doc, preserve);
    PublishMetadata(d, model, doc, if preserve then doc.time else Some(now), now)
  }

  /** The whole body: rows, asset references, then the pruning of shared rows. */
  function ReplaceWritten(db: Db, model: string, doc: Document, items: seq<Item>,
                          assets: seq<AssetRecord>, preserve: bool, now: int): (r: Db)
    requires model in db.profiles
    ensures model in r.profiles
  {
    var d := ReplaceRows(db, model, doc, items, preserve, now);
    Prune(InsertAssets(DeleteRefs(d, model, {doc.key}), model, doc.key, assets), doc.key)
  }

  function Replace(db: Db, model: string, doc: Document, items: seq<Item>,
                   assets: seq<AssetRecord>, preserve: bool, now: int): (r: Db)
    requires model in db.profiles
    ensures model in r.profiles
  {
    if ReplaceOutcome(db, model, doc, preserve) == Written
    then ReplaceWritten(db, model, doc, items, assets, preserve, now)
    else db
  }

  /** One directory scan: where, how deep, what it found and when it began.  `resolve` gives the
      parts of a resolved path. */
  datatype Scan = Scan(root: string, workspace: string, chunking: string, present: set<string>,
                       startedAt: Option<int>, recursive: bool, resolve: string -> seq<string>)

  /** The parent of a path; a path of one part is its own parent. */
  function Parent(parts: seq<string>): seq<string> {
    if |parts| <= 1 then parts else parts[..|parts| - 1]
  }

  /** The path lies under the scanned directory and, unless the scan descended, directly in it. */
  predicate Covered(scan: Scan, path: string) {
    var root, parts := scan.resolve(scan.root), scan.resolve(path);
    root <= parts && (scan.recursive || Parent(parts) == root)
  }

  /** The documents `delete_missing_documents` removes. */
  predicate Missing(k: DocKey, row: CatalogRow, scan: Scan) {
    && k.workspace == scan.workspace && k.chunking == scan.chunking && k.doc !in scan.present
    && row.root == Some(scan.root)
    && (scan.startedAt.Some? ==> row.updatedAt <= scan.startedAt.value)
    && Covered(scan, row.path)
  }

  function MissingKeys(catalog: Catalog, scan: Scan): set<DocKey> {
    set k | k in catalog && Missing(k, catalog[k], scan)
  }

  predicate Enumerates<T(==)>(s: seq<T>, all: set<T>) {
    (forall i, j :: 0 <= i < j < |s| ==> s[i] != s[j]) && (set x | x in s) == all
  }

  function DeleteMissing(db: Db, model: string, scan: Scan, order: seq<DocKey>): (r: Db)
    requires model in db.profiles
    ensures model in r.profiles
  {
    var p := db.profiles[model];
    var gone := MissingKeys(p.catalog, scan);
    if gone == {} then db
    else
      var d1 := WithProfile(db, model, p.(table := DeleteGroups(p.table, gone), catalog := p.catalog - gone));
      PruneAll(Bump(DeleteRefs(d1, model, gone), Scope(scan.workspace, model, scan.chunking)), order)
  }
}
