# Verified model of the document store, its catalog, sessions, streams and layout

The project models four parts of a retrieval-augmented document service and proves what they
promise over every input, every run or every reachable state. `dafny verify dfyconfig.toml`
checks all of it.

## What is modelled

**Publication and catalog.** Chunk tables (one per model profile), catalog rows, list revisions,
shared source and asset rows and the global `ready` flag are maps (`Store.dfy`). `Publication.dfy`,
`Certification.dfy`, `Warmer.dfy` and `DirectoryScan.dfy` change them in place, statement by
statement, in methods that are proved equal to functions on a snapshot. The theorems are about those
functions and about runs of them:

- `Agreement`, `Reconcile`, `Runs`: `ready` means that the catalog is an exact index of the chunk
  tables. Certification establishes it from arbitrary legacy tables; ingestion, cleanup, warming and
  status changes keep it, except for one kind of publication that is named exactly.
- `PublishedRows`, `RemovedDocuments`, `CertifiedRows`, `WarmedRows`: what the steps leave, field by field.
  The row of each ingested, certified or warmed chunk and document, which documents a cleanup removes, and
  which legacy rows are read as which document.
- `Revisions`, `Listing`, `Traversal`, `Browser`, with `Base64Url` and `CursorToken`: an equal
  revision means an equal list; a chain of pages is exactly one list although writers commit in
  between; a request is refused exactly if something named stands against it; the browser always shows
  the beginning of one list.
- `SharedRows`: over whole runs, shared rows exist for whatever refers to them.
- `EmbeddingCache`, `WarmSource`, `Republication`, `WarmTables`, `Warming`, `WarmAgreement`: warming
  resumes. Any failures followed by a success leave what one uninterrupted warm leaves.
- `Protocol`, `Deadlock`, `Isolation`, `Writers`, `Hazards`: the same writers as concurrent processes,
  step by step, over a bounded connection pool with re-entrant owned locks and READ COMMITTED rows.
  `Refinement` ties the two views together: on the shared rows each transaction is its writer's program.
- `Cells`, `Statements`, `Rights`, `Interleaving`, `Transactions`, `StepStatements`, `SerialWriters`,
  `SerialRuns`, `SerialOrder`, `ConcurrentWriters`, `Schedules`: the writers interleaved statement by
  statement on the whole database, chunk tables and counts included. Every commit is a step of the theory,
  so the theorem on `ready` holds for every interleaving; and unless one transaction sees `ready` change,
  the run leaves what its steps leave in some order. A program's reads are written with what they return,
  and the theorems are about all programs, so a writer that decides by what it reads is covered: what it
  did is one of them.

**Sessions and gateway.** `Sessions` gives one semantics to the in-memory store and one to the SQL
predicates, says on histories exactly where they answer alike, and what an admission implies about the
history. `Gateway` has the six handlers over that store, with store calls that may fail before or after
their effect, and follows one browser through any sequence of requests; `GatewayAnswers` says of each
handler which request gets which answer.

**Answer stream.** `EventStream` is the incremental splitter and block parser (event streams as in
section 9.2 of the WHATWG HTML Standard), `JsonText` the string escaping of section 7 of RFC 8259,
`JsonValue` the printing and parsing of whole documents, `StreamClient` the browser's protocol
automaton, `AnswerStream` the server's printer and the two together.

**Layout and ranking.** `Layout` (offset assembly, validation, provenance), `PictureParents` (guarded
and unguarded parent walks), `Headings` (heading stack, ancestor walk) and `Fusion` (reciprocal-rank
fusion).

## Assumptions

They are parameters or `requires` clauses, never axioms.

- UUID5, SHA-256 and the advisory-lock hash are injective: a hash is represented by what it hashes.
  That the hashed *strings* are unambiguous is proved (`ChunkIdentity`).
- For what is said about generated keys, workspace, profile and document names contain no colon and are
  not empty (`PlainNames`). Without it, keys do collide: `ChunkIdentity.ColonInWorkspaceCollides`.
- Asset ids hash the document they belong to, so an id has one owner (`SharedRows.AssetOwner`). Chunk
  identities need no owner, except in the corollaries that say so (`Runs.OwnedNeverClashes`,
  `Warming.OwnedListingIsApart`, `ConcurrentWriters.OwnedWritersKeepAgreement`); an owner of all generated
  identities exists (`Runs.GoodOwnerExists`).
- Certification visits each profile once, as the registry's rows are.
- Provider and model names contain no NUL, which PostgreSQL's text type cannot hold (`EmbeddingCache.PlainProfile`).
  Only for what one profile's calls do to another's entries; without it two profiles of different sizes can
  share a key: `EmbeddingCache.NulInModelCollides`.
- Deleting a catalog row deletes its asset references; that cascade lives in a schema migration.
- Random tokens are never drawn twice, and a token's digest is injective.
- The browser's JSON parser reads back what the server's printer wrote (`AnswerStream.Parses`); that a
  parser can, for all documents, is proved (`AnswerStream.SomeParserParses`). Cursor payloads and ISO
  dates read back (`CursorToken.Faithful`, `Listing.Sensible`).
- Fusion uses exact reals, `rrf_k >= 0`, and distinct ids within each input list.

## Where the code keeps less than it seems to promise

- **Empty chunking profile.** The analysis files a row with `chunking_profile` `""` under `default`,
  the count filters by `COALESCE(metadata->>'chunking_profile', 'default')`. Such a row makes a
  certified catalog disagree with its table, and nothing else does (`Reconcile.CertifiedAgrees`,
  `EmptyChunkingMisfiled`). A warm files such a row's copy under `""` again, beside the document it
  lists it for (`Warming.ListingIsPublishable`).
- **Two documents with one chunk id.** The analysis looks for repeated chunk ids within one document, so
  such a workspace is certified; a warm copies the ids, the row key is made of workspace and chunk id,
  and the second document's publication takes over the first one's row while `ready` holds
  (`WarmAgreement.SharedChunkIdBreaksReady`). Over a run `ready` means agreement if and only if no
  publication made while ready lands on another document's row and no certification meets an empty
  chunking profile (`Runs.ReadyMeansAgreement`); over a warm into a table in agreement, if and only if
  no two listed documents share a row id and none hits a foreign row of the target
  (`WarmAgreement.WarmAgreesExactly`). Convergence of retries does not depend on it.
- **Document-scoped questions.** The server answers them without a session id, and this client rejects
  metadata without one (`AnswerStream.AnsweredExactly`, `DocumentScopedIsRejected`). Its own request
  body never names a document (`frontend/apps/rag-dev-plane/src/api.ts`, lines 323-330).
- **Error code `authentication_required` on the stream.** The client drops its own authentication when
  it reads it, and therefore rejects the `done` event that follows as cancelled; a server error is
  reported for every other code (`StreamClient.ClientLanguages`).
- **Authentication revoked at the end.** If the stream breaks off right after that error, the client reports
  it incomplete, but cancelled if any ignored event, a comment for instance, still follows
  (`StreamClient.OtherEventsIgnored`).
- **Readiness withdrawn under no lock.** Reconciliation clears `ready` before it takes any lock. A cleanup
  looks at `ready` once for each document it prunes; if it is cleared in between, some documents lose their
  source and others keep it, which no order of the two leaves (`Schedules.WithdrawalSplitsACleanup`). There
  is no other way: where no transaction sees `ready` change, some order explains the run
  (`ConcurrentWriters.WritersAreSerial`). To tables, catalogs and revisions each commit does what its step
  does in any case (`ConcurrentWriters.EveryCommitIsAStep`).
- **"More" at the end of a list.** `loadDocumentCatalog` then asks for the first page again, filters
  all of it away and puts the cursor back to page one (`Browser.MoreAtTheEnd`). The panel never asks.
- **Refused `put`.** The in-memory store keeps its clean-up when it refuses a record, the SQL transaction
  rolls it back. No later answer differs but the number returned by a next `cleanup`, and exactly when
  the refused `put` had expired records to clear (`Sessions.HistoriesAgree`, `CleanupCountsDiffer`).
- **Trailing empty block.** An empty last block on the page of the block before it, without baseline
  markers, is attributed to no chunk — and no other block is ever lost
  (`Layout.OnlyTrailingEmptyIsLost`).
- **Fusion bound.** "Found by both searches beats found by one" holds for lists of lengths `m` and `n`
  if and only if `(m - 1)(n - 1) < (rrf_k + 1)^2` (`Fusion.BoundExactly`).

## Model

| member | source | states |
|---|---|---|
| `ChunkIdentity.ChunkIdInjective` | src/app/services/ingestion_service.py:51-57 | equal chunk ids come from the same document, profile and index, although the default profile is not spelled out |
| `ChunkIdentity.RowNameInjective` | src/app/clients/pg_vector_store.py:353-376 | two rows of a table have the same hashed name if and only if workspace, document, profile and index all agree |
| `ChunkIdentity.ColonInWorkspaceCollides` | src/app/clients/pg_vector_store.py:84-86 | the colon condition is needed: a family of distinct chunks with one row name |
| `Agreement.UpsertShape` | src/app/clients/pg_vector_store.py:353-376 | an upsert leaves exactly the old and the new keys, old rows untouched, each new key with a row of one of its items; what such a row holds is said by `PublishedRows.PublishedTable` |
| `Agreement.ReplaceEffect` | src/app/clients/pg_vector_store.py:438-516 | a written publication changes one profile's table and catalog, and raises exactly its own list's revision exactly when a public field or the row's existence changes; pruning and assets touch no list |
| `Agreement.ReplaceAgrees` | src/app/clients/pg_vector_store.py:438-516 | publishing a document's own chunks keeps catalog and table in agreement if and only if no chunk lands on a row filed under another document |
| `Agreement.OverwriteMiscounts` | src/app/clients/pg_vector_store.py:353-376 | one overwritten row of another document is enough to make the index wrong |
| `Agreement.DeleteMissingEffect` | src/app/clients/pg_vector_store.py:536-569 | cleanup removes the same documents from table and catalog and raises the list's revision once, only when something was removed |
| `Agreement.CleanupAgrees` | src/app/clients/pg_vector_store.py:536-569 | directory cleanup keeps the agreement |
| `Reconcile.RebuiltRow` | scripts/reconcile_document_catalog.py:22-66 | after a clean analysis every stored row is outside all workspaces or carries the very metadata the analysis saw |
| `Reconcile.ApplyGroupsCounts` | scripts/reconcile_document_catalog.py:177-219 | after any number of groups, exactly their rows have been added or recounted, each with the number of its stored chunks, and other profiles are as before |
| `Reconcile.ReconciledProfile` | scripts/reconcile_document_catalog.py:156-226 | certification of one profile leaves a row for each group with its true count, drops the stale rows, keeps the empty ones, and touches no other profile |
| `Reconcile.CertifiedAgrees` | scripts/reconcile_document_catalog.py:142-237 | from any legacy table without reported errors, certification establishes the agreement if and only if no analysed row stores an empty chunking profile |
| `Reconcile.EmptyChunkingMisfiled` | scripts/reconcile_document_catalog.py:95 | one row with an empty chunking profile makes the certified catalog disagree with SQL's count |
| `Certification.CheckGroup` | scripts/reconcile_document_catalog.py:97-108 | the set-based checks accept a group if and only if its rows name pairwise distinct chunks, agree pairwise on path, type and title, and give no list or object and no shared non-string as hash or root (several differing ones are forgotten) |
| `Certification.GroupRows` | scripts/reconcile_document_catalog.py:69-95 | every well-formed row is filed once under its own key, keys come without repetition, and the malformed rows are exactly as many as are counted |
| `Certification.CheckGroups` | scripts/reconcile_document_catalog.py:96-118 | no group is reported if and only if all are consistent, and then there is one document per key |
| `Certification.AnalyzeChunks` | scripts/reconcile_document_catalog.py:69-119 | no error is reported if and only if the table is clean, and then the documents are exactly its groups |
| `Certification.ReadDocument` | scripts/reconcile_document_catalog.py:184-192 | a missing root comes from a source row with the same path only, an earlier time is kept for the same known hash only; which hash and root its group gives is said by `CertifiedRows.CertifiedDocuments` |
| `Store.IdTextTells` | scripts/reconcile_document_catalog.py:100 | the text that stands in for a missing chunk id tells a row from every other one of its kind |
| `CertifiedRows.WhoIsSeen` | scripts/reconcile_document_catalog.py:22-44 | only readable rows outside all workspaces are left out of the analysis |
| `CertifiedRows.HowARowIsSeen` | scripts/reconcile_document_catalog.py:45-66 | an alias confirmed by a source row of the same path becomes the document id and is written back; a doubly encoded object is decoded if confirmed and unreadable if not; everything else is seen as it is |
| `CertifiedRows.WhatIsAnalysed` | scripts/reconcile_document_catalog.py:30-66 | the analysis gets every row but the readable ones outside all workspaces, and nothing but their metadata is changed |
| `CertifiedRows.WhatIsWrittenBack` | scripts/reconcile_document_catalog.py:163-182 | no row is lost or added by recovery; a recovered row is rewritten in its metadata alone, all others stay |
| `CertifiedRows.WhatIsCertified` | scripts/reconcile_document_catalog.py:72-118 | a profile passes if and only if every row seen is readable, the rows of each document name distinct chunks, agree on a non-empty path, title and type, hold no list or object and share no non-string as hash or root, the workspace is known, and each asset is there and its own |
| `CertifiedRows.CertifiedDocuments` | scripts/reconcile_document_catalog.py:97-226 | a certified document's row has a hash if and only if all its rows carry that one, their common root or else the source row's, their path, title and type cleaned for display, and a time only with the same known hash; its source row and references follow; documents without rows are dropped if they claim chunks and kept otherwise |
| `Certification.ReplaceRefs` | scripts/reconcile_document_catalog.py:210-219 | the asset references of one publication become exactly those of its chunks, all others stay |
| `Certification.ApplyDocument` | scripts/reconcile_document_catalog.py:200-219 | source row if absent, catalog row, references: the in-place statements have the effect the certification theorem is about |
| `Certification.DropStale` | scripts/reconcile_document_catalog.py:220-226 | each stale row goes with its references and raises its list's revision |
| `Certification.RewriteProfile` | scripts/reconcile_document_catalog.py:163-226 | write-back, rewriting and dropping together are the certification step proved to establish agreement |
| `Certification.Examine` | scripts/reconcile_document_catalog.py:156-199 | a profile passes if and only if its rows are clean, its workspaces known and its assets filed under their own documents; passing yields a rewriting plan |
| `Certification.CertifyInPlace` | scripts/reconcile_document_catalog.py:148-226 | a profile is certified or nothing changes and there is a reason: errors, or ready without storage |
| `Certification.CertifyKeepsRegistry` | scripts/reconcile_document_catalog.py:144-146 | certification adds and removes no profile |
| `Certification.ReconcileCatalog` | scripts/reconcile_document_catalog.py:122-237 | readiness is withdrawn first; then either the whole registry is certified and ready, or everything but the flag is as before and a profile exists that refuses certification |
| `Runs.GoodOwnerExists` | src/app/services/ingestion_service.py:51-57 | generated chunk identities can consistently be assigned to documents |
| `Runs.IngestItemsSound` | src/app/services/ingestion_service.py:157-417 | whatever ingestion publishes is filed under its own document and owned by it |
| `Runs.SoundItemsOverwriteNothing` | src/app/clients/pg_vector_store.py:353-376 | owned chunks never land on another document's row, legacy rows included |
| `Runs.RecoveredRowSound` | scripts/reconcile_document_catalog.py:22-66 | recovery changes no claim: it writes down what a row's alias already said |
| `Runs.WhenAProfilePasses` | scripts/reconcile_document_catalog.py:148-226 | a profile with storage passes if and only if it can be certified, and is then rewritten; one without, if and only if it is not ready |
| `Runs.WhatRegistrationDoes` | database/migrations/model_profile_table.sql:33-68 | a new name becomes a draft with empty storage, and nothing else is touched |
| `Runs.CertifiedProfilesAgree` | scripts/reconcile_document_catalog.py:147-226 | certifying profile after profile, from any legacy tables, brings exactly those in agreement in which, when their turn comes, no analysed row stores an empty chunking profile, and undoes none of the earlier ones |
| `Runs.StepKeepsAgreement` | src/app/clients/pg_vector_store.py:438-569 | from any state in which `ready` implies agreement, each commit of each writer leads to another if and only if it neither publishes onto another document's row while the catalog is ready nor certifies over an empty chunking profile |
| `Runs.ReadyMeansAgreement` | scripts/reconcile_document_catalog.py:69-237 | over every run from any legacy tables, `ready` means a catalog row for every scoped chunk and an exact count in every row in all states, if and only if no step of the run is one of those two |
| `Runs.NamedRunsMisfileNothing` | scripts/reconcile_document_catalog.py:69-95 | where stored and published chunking profiles are absent or nonempty, no certification of a run is over an empty one |
| `Runs.OnlyWarmsClash` | src/app/clients/pg_vector_store.py:353-376 | where chunks from older data never sit under a key that ingestion generates for another document, no step of a run but a warm's publication lands on another document's row |
| `Runs.OwnedNeverClashes` | src/app/clients/pg_vector_store.py:353-376 | if every chunk identity has one owner, no publication ever does, warms included |
| `Revisions.PublishTracks` | src/app/services/document_catalog.py:91-127 | publishing metadata raises the revision whenever public rows changed, and lowers none |
| `Revisions.ReplaceTracks` | src/app/clients/pg_vector_store.py:438-516 | the same for a whole publication, for all lists at once |
| `Revisions.CleanupTracks` | src/app/clients/pg_vector_store.py:536-569 | the same for directory cleanup |
| `Revisions.ReconcileTracks` | scripts/reconcile_document_catalog.py:156-226 | the same for the certification of one profile |
| `Revisions.StepTracks` | src/app/services/document_catalog.py:82-127 | every commit of every writer is tracked by the revision of every list it changed |
| `Revisions.EqualRevisionEqualRows` | src/app/services/document_catalog.py:82-127 | between any two states of a run, equal revisions mean equal public rows, and revisions never fall |
| `Publication.Database.BumpRevision` | src/app/services/document_catalog.py:82-88 | one list's revision rises by one from its value or zero |
| `Publication.Database.PublishMetadata` | src/app/services/document_catalog.py:91-127 | count, conditional upsert and conditional bump amount to the tracked catalog update |
| `Publication.Database.UpsertChunks` | src/app/clients/pg_vector_store.py:353-376 | the insertion loop leaves the upserted table, later items winning, each row with the text and vector of its item (`PublishedRows.PublishedTable`) |
| `Publication.Database.RecordAssets` | src/app/clients/pg_vector_store.py:482-505 | assets are inserted if absent, references always |
| `Publication.Database.PruneSharedDocument` | src/app/clients/pg_vector_store.py:518-534 | unreferenced assets and an unpublished source are removed, and only when the catalog is ready |
| `Publication.Database.WriteRows` | src/app/clients/pg_vector_store.py:456-477 | delete, insert, source row and catalog row have the effect `Agreement.ReplaceAgrees` is about |
| `Publication.Database.ReplaceDocument` | src/app/clients/pg_vector_store.py:427-516 | the guards decide the outcome; a written publication has the effect all theorems speak of, any other changes nothing (`PublishedRows` says column by column what that is) |
| `PublishedRows.PublishedTable` | src/app/clients/pg_vector_store.py:353-376 | after a written publication each chunk's row, under the UUID of its workspace and chunk id, holds its text, vector, path and every payload member; the document's former rows are gone and all others unchanged |
| `PublishedRows.PublishedCatalog` | src/app/services/document_catalog.py:91-127 | the catalog row holds the document's display, hash, path, root, time and number of stored chunks; it is stamped only if something in it is new, and its list's revision rises only if something public is |
| `PublishedRows.PublishedShared` | src/app/clients/pg_vector_store.py:463-534 | source row, assets and references after a publication, one by one, with what pruning takes |
| `PublishedRows.WhetherPublished` | src/app/clients/pg_vector_store.py:440-455 | when a publication is refused, skipped or written |
| `PublishedRows.IngestedRows` | src/app/services/ingestion_service.py:51-57 | an ingested chunk's text and embedding are stored under workspace, document, profile and index, with the document's path, type, hash and root |
| `Publication.Database.RemoveDocuments` | src/app/clients/pg_vector_store.py:561-566 | a set of documents leaves table, catalog and references together with one bump |
| `Publication.Database.PruneDocuments` | src/app/clients/pg_vector_store.py:567-568 | pruning in the order of the removed documents |
| `Publication.Database.DeleteMissingDocuments` | src/app/clients/pg_vector_store.py:536-569 | exactly the documents that do not survive by `RemovedDocuments.CleanupLeaves` — absent, of this root, covered, not written after the scan began — are removed and counted |
| `RemovedDocuments.CleanupLeaves` | src/app/clients/pg_vector_store.py:543-569 | a document stays listed, row and chunks unchanged, if and only if it is of another workspace or profile, present, of another root, newer than the scan, or outside what the scan covered; the revision rises if and only if one goes |
| `RemovedDocuments.CleanupLeavesShared` | src/app/clients/pg_vector_store.py:518-534 | exactly the sources, assets and references that go with the removed documents |
| `Publication.Database.SetProfileStatus` | src/app/services/model_profiles.py:128-139 | only the status of one profile changes |
| `SharedRows.PruneKeeps` | src/app/clients/pg_vector_store.py:518-534 | pruning never takes a source some profile publishes or an asset some profile references |
| `SharedRows.ReconcileKeeps` | scripts/reconcile_document_catalog.py:184-219 | certification refers only to assets that exist under the same document |
| `SharedRows.StepKeepsShared` | src/app/clients/pg_vector_store.py:438-569 | every commit keeps a source for each publication and asset, and an asset of the same document for each reference |
| `SharedRows.SharedRowsStay` | src/app/clients/pg_vector_store.py:467-534 | and so does every run |
| `EmbeddingCache.WordsExactly` | src/app/services/model_profiles.py:216-222 | the words of a text are exactly what stands between its whitespace: none is lost, cut or joined |
| `EmbeddingCache.SameKeySameWords` | src/app/services/model_profiles.py:216-222 | within one profile and purpose, two texts share a key if and only if they have the same words |
| `EmbeddingCache.PurposesApart` | src/app/services/model_profiles.py:216-222 | a query and a document never share a key |
| `EmbeddingCache.FillOrigin` | src/app/services/model_profiles.py:242-261 | whatever the loop added is the provider's answer for one of its texts with that key |
| `EmbeddingCache.FillResumes` | src/app/services/model_profiles.py:242-261 | a loop started again after any prefix ends with the cache of one longer loop |
| `EmbeddingCache.EstimateIsExact` | src/app/services/model_profile_warmer.py:128-149 | the number of distinct uncached keys is the number of provider calls of the full loop |
| `EmbeddingCache.AllEmbedMeans` | src/app/services/model_profiles.py:242-261 | the loop gets through if and only if each wanted key ends with a vector of the profile's size |
| `EmbeddingCache.KeySpellsSize` | src/app/services/model_profiles.py:216-222 | two profiles that share a key have the same provider, model and size, whatever the texts and purposes |
| `EmbeddingCache.SharedCacheFits` | database/migrations/005_model_profiles.sql:37-48 | in a table filled by any calls of any profiles, every entry under a profile's key has its size |
| `EmbeddingCache.SharedHolds` | src/app/services/model_profiles.py:86-104 | what the shared cache holds under a key is the first answer of the right size to any call for it, and nothing if there was none |
| `EmbeddingCache.SharedCacheNeverMismatches` | src/app/services/model_profiles.py:165-175 | so over a table that began empty no warm or embedding call meets a wrong-sized entry |
| `EmbeddingCache.NulInModelCollides` | src/app/services/model_profiles.py:216-222 | the condition on names is needed: two profiles of different sizes with one key |
| `EmbeddingCache.MemoryCache.Get` | src/app/services/model_profiles.py:86-92 | an entry of the wrong size is an error, never a result |
| `EmbeddingCache.MemoryCache.Put` | src/app/services/model_profiles.py:94-104 | entries are added and never replaced; wrong sizes are refused |
| `EmbeddingCache.CachedClient.Embed` | src/app/services/model_profiles.py:242-261 | a vector comes back if and only if the entry under the text's key has the profile's size, or there is none and the provider is up and its answer has it; otherwise the cache is as it was; the provider is called exactly for an unknown key |
| `EmbeddingCache.CachedClient.EmbedAll` | src/app/services/model_profile_warmer.py:128-149 | over any cache, of whatever sizes: the loop ends if and only if every entry and answer it meets has the profile's size and the provider lasts for the misses; calls are counted exactly where it stops, and every vector is the cached one for its text |
| `EmbeddingCache.VectorsAnswerTheWords` | src/app/services/model_profiles.py:216-261 | each vector returned was in the cache before or is the provider's answer, under the profile's document prefix, for one of the texts with the same words |
| `Republication.PublishSettles` | src/app/clients/pg_vector_store.py:438-516 | a warmed publication leaves its rows, its count, its references and its assets exactly in place |
| `Republication.SettledIsIdle` | src/app/clients/pg_vector_store.py:438-516 | publishing it again changes nothing at all, revision and `updated_at` included |
| `Republication.OthersStaySettled` | src/app/clients/pg_vector_store.py:438-534 | publishing another document disturbs none that is settled |
| `Republication.PublishEmptied` | src/app/clients/pg_vector_store.py:438-516 | what a publication does outside the chunk table, its count included, does not depend on the chunk table |
| `Republication.ListedIsIdle` | src/app/clients/pg_vector_store.py:438-516 | once its catalog row, references and assets are in place, publishing a document again changes nothing but chunk rows, whatever has become of those |
| `Republication.OthersStayListed` | src/app/clients/pg_vector_store.py:438-534 | publishing another document leaves catalog row, references and assets in place even if it takes over some chunk rows |
| `WarmSource.Collect` | src/app/clients/pg_vector_store.py:297-351 | gathering succeeds if and only if every chunk is legible, and then each document has its own chunks, in order |
| `WarmSource.ReadAssets` | src/app/clients/pg_vector_store.py:297-351 | assets are read if and only if all wanted ones exist under the document |
| `WarmSource.ListWarmable` | src/app/clients/pg_vector_store.py:297-351 | the call succeeds if and only if every selected chunk is legible and every wanted asset stored under its document; then it returns the listing of the snapshot |
| `WarmSource.EntryBelongs` | src/app/clients/pg_vector_store.py:297-351 | for any legacy chunk ids, a listed document's chunks are filed under it if and only if none of its rows stores an empty chunking profile |
| `WarmSource.EntrySound` | src/app/clients/pg_vector_store.py:297-351 | each listed document's chunks are its own and owned by it |
| `WarmSource.KeysDistinct` | src/app/clients/pg_vector_store.py:297-351 | no document is listed twice |
| `WarmSource.EveryChunkOnce` | src/app/clients/pg_vector_store.py:297-351 | the listed chunks are as many as the selected rows |
| `WarmSource.ChunksAreRows` | src/app/clients/pg_vector_store.py:297-351 | a listed document's chunks are the copies of its rows, one for each and in their order; a document that is not listed has none |
| `WarmSource.EveryRowHasOnePlace` | src/app/clients/pg_vector_store.py:297-351 | each selected row is listed at exactly one place: under one document, and there once |
| `WarmTables.TablesConverge` | src/app/clients/pg_vector_store.py:353-376 | however often and however far any list of documents is published again, a complete pass leaves the table one pass leaves |
| `WarmTables.PassSettles` | src/app/clients/pg_vector_store.py:353-376 | if chunks are filed under their documents, no two documents share a row id and none hits a foreign row, a pass settles each document and leaves the rows of all others alone |
| `Warming.RangeSettles` | src/app/services/model_profile_warmer.py:137-149 | under the same conditions, publishing documents in order settles each of them and disturbs none before |
| `Warming.SettledRangeIsIdle` | src/app/services/model_profile_warmer.py:137-149 | publishing again what is settled is idle |
| `Warming.TryProgress` | src/app/services/model_profile_warmer.py:113-149 | an attempt that stops anywhere leaves the most that it or an earlier one reached, just as an uninterrupted run would have left that much |
| `Warming.RetriesConverge` | src/app/services/model_profile_warmer.py:113-149 | any sequence of failed attempts followed by a success leaves the same cache, rows, counts, hashes, times, revisions and shared rows as one uninterrupted warm, wherever chunks are filed and whatever rows documents take from each other; only `updated_at` may differ |
| `Warming.FailureIsAtomic` | src/app/services/model_profile_warmer.py:113-149 | after failures the target stays `warming`, and if the chunks are filed under their documents, no two documents share a row id and none hits a foreign row, each document is wholly old or wholly new and others are untouched |
| `Warming.WarmingBlocksPublication` | src/app/clients/pg_vector_store.py:438-455 | while a profile is warming, no sequence of ingestions changes anything of it, its table, catalog and revisions included |
| `Warming.ListingIsPublishable` | src/app/clients/pg_vector_store.py:297-351 | whatever table it lists, the listing meets every assumption of the convergence theorem; and its chunks are filed under their documents if and only if no listed row stores an empty chunking profile |
| `Warming.OwnedListingIsApart` | src/app/clients/pg_vector_store.py:297-351 | with one owner for each chunk identity, no two listed documents share a row id and none hits a foreign row of the target |
| `WarmAgreement.WarmAgreesExactly` | src/app/services/model_profile_warmer.py:137-149 | where chunks are filed under their documents, catalog and table of the target agree after each of a warm's commits if and only if no two listed documents share a row id and none hits a foreign row |
| `WarmAgreement.AtomicExactly` | src/app/services/model_profile_warmer.py:113-149 | every document is wholly old or wholly new after every possible sequence of failures under the same condition and under no weaker one |
| `WarmAgreement.LegacyIsClean` | scripts/reconcile_document_catalog.py:97-104 | two documents of one workspace may share a chunk id: the analysis reports no error |
| `WarmAgreement.LegacyCertified` | scripts/reconcile_document_catalog.py:122-237 | such a table is certified and `ready` is set |
| `WarmAgreement.SharedChunkIdBreaksReady` | src/app/clients/pg_vector_store.py:353-376 | and warming the two documents then leaves the catalog ready and wrong, for all document names and chunk ids |
| `Warming.ListingSurvives` | src/app/services/model_profile_warmer.py:113-149 | failed attempts do not change what the next listing of the source returns |
| `WarmedRows.RowIsListed` | src/app/clients/pg_vector_store.py:297-351 | every row of the workspace is listed under the document and profile it names, with its own text, id and payload |
| `WarmedRows.DocumentListed` | src/app/clients/pg_vector_store.py:300-327 | a listed document has the fields of its catalog row, or else of its first chunk |
| `WarmedRows.WarmedRow` | src/app/services/model_profile_warmer.py:136-149 | after a complete warm a chunk is stored with its text and the vector cached for that text, if no later chunk has its key and no later document is its own |
| `WarmedRows.WarmedFromSource` | src/app/services/model_profile_warmer.py:118-149 | from row to row: each selected row of the source is found in the target with the same text and payload and the cached vector of its text |
| `WarmedDocuments.WhenASourceIsListable` | src/app/clients/pg_vector_store.py:297-351 | a source can be listed if and only if each of its rows names a document, with a profile that is a text or absent and a list of assets, and each asset that a document's chunks name or its publication refers to is there and its own |
| `WarmedDocuments.AssetsListed` | src/app/clients/pg_vector_store.py:328-351 | a listed document brings exactly those assets, with their stored data |
| `WarmedDocuments.WarmedDocument` | src/app/services/model_profile_warmer.py:136-151 | after a complete warm the target is ready, each listed document has its own catalog row, with the time of the source, and its references; everything else is as before |
| `Warmer.WarmDocument` | src/app/services/model_profile_warmer.py:137-149 | a document is embedded completely and published, or not published at all, and which of the two is decided by the sizes met and the calls left |
| `Warmer.WarmAll` | src/app/services/model_profile_warmer.py:136-149 | the loop is one attempt of the theory; it succeeds if and only if every vector it meets has the target's size and the provider lasts for the estimate |
| `Warmer.CountHits` | src/app/services/model_profile_warmer.py:124-133 | a wrong-sized entry under a wanted key is reported, and no other entry of the cache is; otherwise hits and missing keys are the cache's own |
| `Warmer.HitsAre` | src/app/services/model_profile_warmer.py:124-133 | the reported hits are the texts whose key was cached before |
| `Warmer.WhyRejected` | src/app/services/model_profile_warmer.py:64-106 | which of the checks before a warm fails first, for each reason exactly |
| `Warmer.Warm` | src/app/services/model_profile_warmer.py:56-149 | rejections, illegible sources, dry runs and wrong-sized entries under wanted keys change nothing, and each is told from the others by an if-and-only-if; it reports if and only if the source can be listed, the cached entries fit, and it is a dry run or the provider lasts for the estimate with fitting answers; a report states the true numbers and leaves the completed warm, any other failure leaves one attempt |
| `DirectoryScan.IngestFile` | src/app/services/ingestion_service.py:213-401 | an unchanged file is skipped, a changed one published |
| `DirectoryScan.IngestDirectory` | src/app/services/ingestion_service.py:157-417 | unavailable profiles change nothing; otherwise publish, skip and clean up as the scan theorems assume; the removed documents are exactly the missing ones, each visited once, and all counts are true |
| `DirectoryScan.CleanupSparesPresent` | src/app/services/ingestion_service.py:213-406 | after a scan every scanned file is in the catalog with its hash |
| `DirectoryScan.CleanupSparesNewer` | src/app/clients/pg_vector_store.py:536-569 | cleanup removes no document written after the scan began |
| `DirectoryScan.WhetherIngested` | src/app/services/ingestion_service.py:213-401 | a file is skipped if and only if its very version is listed, and published otherwise |
| `DirectoryScan.ScanLeaves` | src/app/services/ingestion_service.py:157-417 | after a scan exactly the files and the survivors of the cleanup are listed |
| `DirectoryScan.ChunksReported` | src/app/services/ingestion_service.py:213-401 | the reported chunks are those of the files whose version was not yet published when the scan began |
| `DirectoryScan.SecondScanIsIdle` | src/app/services/ingestion_service.py:157-417 | scanning the same directory again changes nothing, if the first scan began after the rows it found were written |
| `Protocol.LessTransitive` | src/app/clients/pg_vector_store.py:408-425 | profile locks before document locks, each kind sorted, is an order |
| `Protocol.LessTotal` | src/app/clients/pg_vector_store.py:408-425 | and it orders any two locks |
| `Protocol.RunKeepsOrderly` | src/app/services/document_catalog.py:27-38 | over every run locks have one owner, connections stay within the pool, and every process keeps the discipline to its end |
| `Deadlock.EveryWaitEnds` | src/app/services/document_catalog.py:66-79 | from every unfinished writer a chain of waits leads to one that can go on |
| `Deadlock.NeverDeadlocked` | src/app/clients/pg_vector_store.py:408-425 | no reachable state of disciplined writers over a nonempty pool is deadlocked |
| `Isolation.ExecutedGood` | src/app/clients/pg_vector_store.py:518-534 | each row statement, check-then-delete included, keeps what its transaction sees of its document complete |
| `Isolation.CoverIsExclusive` | src/app/services/document_catalog.py:66-79 | a document lock with a profile lock, and all profile locks together, exclude each other |
| `Isolation.CommitUnseen` | src/app/clients/pg_vector_store.py:467-534 | a commit changes nothing another process sees of the documents it has locked |
| `Isolation.CommittedRowsAreComplete` | src/app/clients/pg_vector_store.py:467-534 | with statements interleaved in any way and processes failing at any point, every committed state has a source for each publication and asset and an asset for each reference |
| `Writers.PublicationLeads` | src/app/clients/pg_vector_store.py:438-516 | a publication, alone or under session locks already owned, keeps the discipline |
| `Writers.CleanupLeads` | src/app/clients/pg_vector_store.py:543-569 | so does cleanup with its sorted document locks |
| `Writers.WarmLeads` | src/app/services/model_profile_warmer.py:56-149 | so does a warm, whose publications take owned locks again |
| `Writers.ReconcileLeads` | scripts/reconcile_document_catalog.py:140-237 | so does reconciliation, which covers all documents by all profile locks |
| `Writers.JobsAreDisciplined` | src/app/clients/pg_vector_store.py:408-425 | every program of every writer kind keeps the discipline from first connection to last |
| `Writers.WritersAreSafeAndLive` | src/app/clients/pg_vector_store.py:408-569 | any number of writers over any pool, interleaved in any way: rows stay complete and nobody is stuck |
| `Refinement.ReplaceShown` | src/app/clients/pg_vector_store.py:427-516 | a publication's row program, run by itself, leaves the sources, publications, assets and references its transaction leaves |
| `Refinement.CleanupShown` | src/app/clients/pg_vector_store.py:536-569 | so does cleanup's, in whatever order it prunes |
| `Refinement.ProfileShown` | scripts/reconcile_document_catalog.py:156-226 | so do the repairs of a certified profile |
| `Refinement.EveryStepHasItsProgram` | src/app/clients/pg_vector_store.py:408-569 | every commit of every run is, on the shared rows, the program of a writer that keeps the discipline of locks |
| `Statements.EffectFrame` | src/app/clients/pg_vector_store.py:438-569 | a statement, cascades included, changes no cell but those it may |
| `Statements.EffectLocal` | src/app/clients/pg_vector_store.py:438-569 | what it does is decided by the cells it looks at |
| `Rights.RightsAreExclusive` | src/app/services/document_catalog.py:66-79 | what one process may write under its locks, no other may look at under its own |
| `Rights.ReplayLocal` | src/app/clients/pg_vector_store.py:438-569 | a list of statements does the same on any two databases that agree where it looks |
| `Interleaving.CommitUnseen` | src/app/clients/pg_vector_store.py:408-425 | a commit changes nothing that another process has a right to look at |
| `Interleaving.CommitKeepsOthers` | src/app/clients/pg_vector_store.py:408-425 | so an open transaction, executed on the newly committed state, still leaves exactly what its process sees |
| `Interleaving.RunKeepsInv` | src/app/clients/pg_vector_store.py:408-569 | and this holds of every process in every reachable state, failures at any point included |
| `Interleaving.RunIsSerial` | src/app/clients/pg_vector_store.py:408-569 | what is committed is what the committed transactions leave when each is executed in one go |
| `Transactions.IngestStands` | src/app/clients/pg_vector_store.py:438-516 | the statements of an ingestion that publishes amount to its step, on every database on which its reads return what it was given |
| `Transactions.UnchangedStands` | src/app/clients/pg_vector_store.py:447-455 | so does the single read of one that finds its version there |
| `Transactions.WarmPublishStands` | src/app/clients/pg_vector_store.py:438-516 | so do those of a warmed document |
| `Transactions.CleanupStands` | src/app/clients/pg_vector_store.py:536-569 | so do those of a cleanup, with a look at `ready` before each pruning |
| `Transactions.SuspendStands` | scripts/reconcile_document_catalog.py:137-140 | so does the withdrawal |
| `Transactions.CertificationStands` | scripts/reconcile_document_catalog.py:142-237 | so do those of a certification, profile after profile and group after group |
| `StepStatements.EveryStepHasStatements` | src/app/clients/pg_vector_store.py:408-569 | in every state, every step that is not refused is what its statements do with some reads that return what is there |
| `SerialWriters.PublicationFollows` | src/app/clients/pg_vector_store.py:436-516 | a publication keeps the discipline of locks, statement by statement |
| `ConcurrentWriters.CleaningFollows` | src/app/clients/pg_vector_store.py:540-569 | so does a cleanup, whose first read is covered by its profile lock |
| `ConcurrentWriters.WarmingUpFollows` | src/app/services/model_profile_warmer.py:69-149 | so does a warm with its two changes of status under session locks |
| `ConcurrentWriters.ReconcilingFollows` | scripts/reconcile_document_catalog.py:137-237 | so does a reconciliation, which withdraws `ready` under no lock and then locks the registry |
| `ConcurrentWriters.CommittedStepsAreTheirs` | src/app/clients/pg_vector_store.py:408-569 | nothing is committed but steps of the writers |
| `ConcurrentWriters.EveryCommitIsAStep` | src/app/clients/pg_vector_store.py:408-569 | any number of processes running any writers, interleaved and failing in any way: each commit takes tables, catalogs, revisions and the flag from one committed state to the next as a step of one of the writers does, and the shared rows too if `ready` is as it was seen |
| `SerialRuns.UndisturbedIsSerial` | src/app/clients/pg_vector_store.py:408-569 | if `ready` is never withdrawn while another transaction is open that has looked at it, the run leaves what the steps leave in the order of their commits |
| `SerialOrder.Commute` | src/app/services/document_catalog.py:66-79 | two transactions under locks of their own may change places |
| `SerialOrder.UnsplitIsSerial` | src/app/clients/pg_vector_store.py:518-534 | if no transaction sees `ready` change, the run leaves what the steps leave in some order: one that looked before the withdrawal goes before it |
| `ConcurrentWriters.WritersAreSerial` | src/app/clients/pg_vector_store.py:408-569 | the same for any number of writers from any database |
| `ConcurrentWriters.WritersReadyMeansAgreement` | scripts/reconcile_document_catalog.py:69-237 | interleaved statement by statement, `ready` means agreement in every committed state if and only if no commit breaks it in the way named above |
| `ConcurrentWriters.OwnedWritersKeepAgreement` | scripts/reconcile_document_catalog.py:69-237 | and where every chunk identity has an owner, it always does |
| `Schedules.WithdrawalSplitsACleanup` | scripts/reconcile_document_catalog.py:137-140 | a schedule, for every ready catalog with two documents to clean up, whose result no order of its two steps leaves |
| `Hazards.WithoutDocumentLocks` | src/app/services/document_catalog.py:76-79 | without document locks, two writers that begin with nothing have a run that commits a publication without its source |
| `Hazards.BorrowingDeadlocks` | src/app/services/document_catalog.py:27-38 | a warm that borrowed a second connection, beside an ingestion that keeps the discipline, has a run from the beginning to a deadlock |
| `Base64Url.DecodeEncode` | src/app/services/document_catalog.py:138-175 | decoding with `-len % 4` padding inverts unpadded base64url (section 5 of RFC 4648) for all byte strings |
| `Base64Url.LoneCharacter` | src/app/services/document_catalog.py:143-175 | a length of one modulo four is never accepted |
| `Base64Url.LettersDecode` | src/app/services/document_catalog.py:143-153 | letters in any other number are decoded, to bytes that are written with the same letters but for bits that stand for no byte |
| `CursorToken.DecodeEncode` | src/app/services/document_catalog.py:138-175 | a token decodes to its payload if and only if the payload is valid now and the token within the size limit, and to nothing otherwise |
| `CursorToken.EncodeInjective` | src/app/services/document_catalog.py:138-141 | different payloads have different tokens |
| `CursorToken.AcceptedIsSigned` | src/app/services/document_catalog.py:143-175 | any accepted token, forged ones included, is one data part and its own signature, and carries a valid payload |
| `CursorToken.ReadToken` | src/app/services/document_catalog.py:138-175 | the list service's own cursors come back field by field |
| `CursorToken.ReadExactly` | src/app/services/document_catalog.py:143-175 | a token, whoever made it, is read as a cursor if and only if it is not too long, its data decode to an object that says all of this cursor, it bears their signature, and the cursor is plausible: names, digits, 1 to 100 rows, a window of fifteen minutes begun no later than half a minute from now |
| `Listing.BeforeTotal` | src/app/services/document_catalog.py:184-213 | time descending, nulls last, id ascending leaves no two documents unordered |
| `Listing.ListingExists` | src/app/services/document_catalog.py:184-213 | every list has a sorted listing |
| `Listing.SortedUnique` | src/app/services/document_catalog.py:184-213 | members determine the order |
| `Listing.FullIsUnique` | src/app/services/document_catalog.py:184-213 | and it is the only one |
| `Listing.MatchingIsSuffix` | src/app/services/document_catalog.py:195-205 | the keyset predicate selects exactly the strict suffix after the cursor's row, for dated and undated rows |
| `Traversal.FirstPage` | src/app/services/document_catalog.py:222-266 | a first page is the beginning of the listing, with a cursor at its last row exactly if there is more |
| `Traversal.NextPage` | src/app/services/document_catalog.py:222-266 | a next page is answered only for the same scope and revision within the first page's 900 seconds, and then continues where the cursor stands, keeping the window; that no other reader gets one is `Traversal.WhenAPageIsAnswered` |
| `Traversal.NextPageSucceeds` | src/app/services/document_catalog.py:222-266 | a next page is answered if and only if the token fits the size limit, the cursor is in its window, the model available, the catalog ready and the revision unchanged |
| `Traversal.WhenAPageIsAnswered` | src/app/services/document_catalog.py:222-245 | a page is answered if and only if service, profile, model and catalog are available and a cursor, if there is one, reads back, was made for this workspace, subject, page size, model and profile, is in its window and of the current revision |
| `Traversal.WhyAListIsRefused` | src/app/services/document_catalog.py:222-245 | every refusal has the status of the first condition that fails |
| `Traversal.ChainIsPrefix` | src/app/services/document_catalog.py:184-266 | pages followed by `next_cursor` while writers commit show a prefix of one listing, which is still the current one at the last page |
| `Traversal.ChainIsListing` | src/app/services/document_catalog.py:184-266 | a chain that ends has shown exactly the full listing of one revision, no gap and no repeat |
| `Browser.LoadDocumentCatalog` | frontend/apps/rag-dev-plane/src/documentCatalog.ts:4-19 | whatever the server answers from request to request: one request or two, the second only if the list has changed, and then from the start and decisive |
| `Browser.WhatIsAccepted` | frontend/apps/rag-dev-plane/src/api.ts:204-224 | a response is a page if and only if every document has an id and there is a cursor exactly if there is more; any other is a protocol error |
| `Browser.WhatALoadComesTo` | frontend/apps/rag-dev-plane/src/documentCatalog.ts:4-19 | it starts over if and only if the server reports a changed list or the page is of another one; otherwise exactly the documents not shown before are appended, in their order |
| `Browser.WhatThePanelShows` | frontend/apps/rag-dev-plane/src/DocumentsPanel.tsx:20-54 | the loaded list; without one the old list is given up after a restart or a refusal of access, and kept after any other failure |
| `Browser.WhatIsSent` | frontend/apps/rag-dev-plane/src/api.ts:197-203 | a request goes on where its cursor says, an empty one not being sent, for 25 documents |
| `Browser.FirstPageHolds` | frontend/apps/rag-dev-plane/src/api.ts:197-225 | an accepted first page is a prefix of the listing |
| `Browser.MorePageHolds` | frontend/apps/rag-dev-plane/src/documentCatalog.ts:4-19 | an accepted further page continues the shown prefix and the de-duplication filter removes nothing |
| `Browser.ListShownIsPrefix` | frontend/apps/rag-dev-plane/src/DocumentsPanel.tsx:20-54 | over any run of user actions, failures and commits, what is shown is a duplicate-free prefix of one revision's listing in one scope |
| `Browser.ShownScope` | frontend/apps/rag-dev-plane/src/api.ts:197-203 | over any such run it is the list of the chosen workspace under the default profiles |
| `Browser.ShownCursor` | frontend/apps/rag-dev-plane/src/api.ts:197-203 | and its cursor was made for this reader, this workspace and pages of 25 |
| `Browser.MoreAtTheEnd` | frontend/apps/rag-dev-plane/src/documentCatalog.ts:4-19 | asking for more at the end adds nothing and rewinds the cursor; harmless if and only if the list has one page |
| `EventStream.SplitContinues` | frontend/apps/rag-dev-plane/src/api.ts:366-375 | splitting a concatenation is splitting the first part and going on from its remainder, also when a separator is cut in two |
| `EventStream.ReadIsSplit` | frontend/apps/rag-dev-plane/src/api.ts:366-375 | the incremental buffer yields, for every cutting, the blocks of the whole text minus its last remainder |
| `EventStream.ParsePrinted` | frontend/apps/rag-dev-plane/src/api.ts:309-321 | parsing a printed event gives it back |
| `EventStream.SplitPrintedAll` | src/app/services/chat_service.py:246-249 | printed events are recovered block by block with nothing left over |
| `EventBlocks.SplitExactly` | frontend/apps/rag-dev-plane/src/api.ts:370 | the blocks are what is left of the text when it is cut, from left to right, at two line ends, each with or without its carriage return: these parts and no others |
| `EventBlocks.LinesExactly` | frontend/apps/rag-dev-plane/src/api.ts:312 | the lines of a block are exactly the texts between its line ends |
| `EventBlocks.EventExactly` | frontend/apps/rag-dev-plane/src/api.ts:309-321 | a block is an event if and only if it has a line of data; the data are the values of those lines, one space after the colon not counting, with line feeds between them, and the name is the last one given, or `message` |
| `JsonText.UnescapeEscaped` | src/app/services/chat_service.py:246-247 | every text, control characters and quotes included, comes back from its JSON escape, and where it ends is unambiguous |
| `JsonText.EscapedIsOneLine` | src/app/services/chat_service.py:246-247 | an escaped text never contains a line end that would break the event |
| `JsonText.EscapeIsShortest` | src/app/services/chat_service.py:246-247 | a character is printed as itself, as a short escape or as four digits, and never longer than it must be |
| `JsonText.UnescapeExactly` | src/app/services/chat_service.py:246-247 | a text is read as a string if and only if its characters, each spelled in one of these ways, stand before the first closing quote |
| `JsonValue.ReadValue` | src/app/services/chat_service.py:246-248 | a printed document is read back from the front of any text that may follow it |
| `JsonValue.ParseDumps` | src/app/services/chat_service.py:246-248 | parsing inverts printing for all documents: null, booleans, numerals, strings, lists and objects, nested |
| `JsonValue.PrintedNumbers` | src/app/services/chat_service.py:246-248 | every numeral of section 6 of RFC 8259 is among those the claims are about |
| `JsonValue.WhatAValueMeans` | src/app/services/chat_service.py:246-248 | a list means its items in their order, an object its members, the last of those with one name |
| `JsonValue.DumpsOnOneLine` | src/app/services/chat_service.py:246-248 | a printed document contains no line end |
| `StreamClient.OtherEventsIgnored` | frontend/apps/rag-dev-plane/src/api.ts:332-346 | unknown events and comments make no difference to the outcome, except that after a final `authentication_required` error they turn an incomplete stream into a cancelled one |
| `StreamClient.WhatABlockSays` | frontend/apps/rag-dev-plane/src/api.ts:336-364 | which blocks are an answer, usable metadata, an error with which code, an end with which reason, an unusable payload, or none of these, each exactly |
| `StreamClient.WhatRevokes` | frontend/apps/rag-dev-plane/src/api.ts:336-358 | one error code, `authentication_required`, and no other makes the client cancel at whatever block follows |
| `StreamClient.ClientLanguages` | frontend/apps/rag-dev-plane/src/api.ts:332-376 | the client returns on exactly `answer* meta done(completed)`, with exactly those deltas, and reports a server error on exactly `answer* error done(error)` unless the code is `authentication_required` |
| `StreamClient.StreamReader.ProcessBlock` | frontend/apps/rag-dev-plane/src/api.ts:336-364 | one block moves the automaton or throws, and throwing changes no state |
| `StreamClient.StreamReader.ProcessBlocks` | frontend/apps/rag-dev-plane/src/api.ts:366-373 | blocks already processed determine the rest of the run, whatever follows |
| `StreamClient.StreamReader.Stream` | frontend/apps/rag-dev-plane/src/api.ts:323-376 | the outcome depends on the text only, not on how the network cut it |
| `AnswerStream.TokensConcat` | src/app/services/chat_service.py:242-246 | the tokens of an answer, joined, are the answer, whitespace included |
| `AnswerStream.TokensAre` | src/app/services/chat_service.py:244 | a token is a word with all the spaces after it; only the first may be spaces alone |
| `AnswerStream.Generate` | src/app/api/routers/chat.py:96-114 | the generator's events for an answer that completes or fails before any token or at the metadata |
| `AnswerStream.MetaAccepted` | frontend/apps/rag-dev-plane/src/api.ts:348-353 | the client accepts the server's metadata if and only if they name a session |
| `AnswerStream.OutcomeOfRun` | src/app/api/routers/chat.py:96-114 | a finished run with a session returns its tokens and metadata, one without a session is rejected, an interrupted one is reported as a server error |
| `AnswerStream.AnsweredExactly` | src/app/services/chat_service.py:77-122 | a question is answered if and only if nothing fails and it is not document-scoped; the other outcomes are told apart exactly |
| `AnswerMetadata.MetadataShown` | src/app/services/chat_service.py:237-243 | the metadata as parsed show session, grounding, debug data and every source with its assets, each value under its own name |
| `AnswerMetadata.WhatTheReaderGets` | src/app/services/chat_service.py:77-122 | a complete answer is its tokens in order and metadata that name the given session, or the fresh one if none was given, with the reply's grounding and sources |
| `AnswerMetadata.HowARunEnds` | src/app/api/routers/chat.py:96-114 | a run is finished if and only if nothing fails, and otherwise interrupted before the token at which it fails or after the last |
| `AnswerMetadata.ErrorShown` | src/app/api/routers/chat.py:110-113 | the announced error carries its code and its message |
| `AnswerStream.DocumentScopedIsRejected` | src/app/services/chat_service.py:237-248 | a document-scoped question is answered by the server and rejected by this client |
| `AnswerStream.Deliver` | src/app/services/chat_service.py:242-249 | for every answer and every cutting of the stream, the deltas concatenate to the answer and the metadata arrive, or a run without session is rejected, or a server error is reported |
| `AnswerStream.TruncationIsNoticed` | frontend/apps/rag-dev-plane/src/api.ts:366-376 | a stream cut short anywhere is never an answer: it is reported as incomplete, or rejected if metadata without a session came through |
| `AnswerStream.SomeParserParses` | src/app/services/chat_service.py:246-249 | the assumption on the JSON parser can be met, for all printed documents |
| `Sessions.StoresAgree` | src/app/auth/store.py:120-162 | each operation but `cleanup` returns the same from the in-memory store and from SQL, and each leaves the same unexpired records |
| `Sessions.OperationMeans` | src/app/auth/store.py:43-87 | each operation, key by key: what it returns and what becomes of every record; a lookup returns only records of the kind asked for |
| `Sessions.HistoriesAgree` | src/app/auth/store.py:43-162 | over every history with a clock that does not run backwards both stores give the same answers, except for exactly the number of a `cleanup` that follows a refused `put` with expired records to clear, no accepted `put` and no `cleanup` between them |
| `Sessions.CleanupCountsDiffer` | src/app/auth/store.py:43-58 | a history in which only the number returned by `cleanup` differs |
| `Sessions.RecordExplained` | src/app/auth/store.py:53-87 | every stored record was stored once, changed only its last-seen time and revocation since, and the history says why |
| `Sessions.AdmittedMeans` | src/app/auth/store.py:73-87 | an admission lies before the fixed expiry of a session stored earlier, not revoked since, and within the idle window of its creation or of an earlier admission |
| `Sessions.AdmittedExactly` | src/app/auth/store.py:73-87 | under a clock that does not run backwards, a session is admitted if and only if its history allows it |
| `Sessions.ConsumedOnce` | src/app/auth/store.py:65-71 | between two consumptions of a token there is another record stored under it |
| `Sessions.CapacityKept` | src/app/auth/store.py:53-58 | the number of records never exceeds the limit |
| `Sessions.MemorySessionStore.CleanUp` | src/app/auth/store.py:43-51 | exactly the expired records go, and are counted |
| `Sessions.MemorySessionStore.Put` | src/app/auth/store.py:53-58 | in place, the store's `put`: clean-up, then refusal on capacity or collision |
| `Sessions.MemorySessionStore.Get` | src/app/auth/store.py:60-63 | in place, reading neither extends nor removes a record |
| `Sessions.MemorySessionStore.Consume` | src/app/auth/store.py:65-71 | in place, the store's one-use read |
| `Sessions.MemorySessionStore.Admit` | src/app/auth/store.py:73-81 | in place, the store's admission with its last-seen time |
| `Sessions.MemorySessionStore.Revoke` | src/app/auth/store.py:83-87 | in place, the store's revocation, of sessions only |
| `Gateway.DeadForever` | src/app/auth/store.py:53-87 | a session that cannot be admitted never can be again, whatever operations follow |
| `Gateway.Gate.Store` | src/app/auth/store.py:28-34 | a store call works, or fails before or after its effect |
| `Gateway.Gate.CreateRecord` | src/app/auth/main.py:122-127 | a new record expires exactly its lifetime after the clock reading, and no other record changes |
| `Gateway.Gate.SessionRow` | src/app/auth/main.py:140-146 | a row is found only for an unrevoked session within its idle window; no row means the cookie's session is dead |
| `Gateway.Gate.CsrfContext` | src/app/auth/main.py:148-151 | the CSRF context is the session of the cookie, else the bootstrap record of the other |
| `Gateway.Gate.FinishLogin` | src/app/auth/main.py:160-175 | a session cookie comes with status 303 and no other; then the new record is stored and the old session dead, and any failing store call leaves 503 and no cookie |
| `Gateway.Gate.HandleStatus` | src/app/auth/main.py:199-223 | a status read changes no existing record, so it never extends a session, and clears only a dead cookie |
| `Gateway.Gate.HandleLogin` | src/app/auth/main.py:226-249 | a new login cookie means that the browser's previous login record can no longer be consumed |
| `Gateway.Gate.HandleCallback` | src/app/auth/main.py:252-276 | a session comes only from a live login record of this browser with the same state |
| `Gateway.Gate.HandleDevLogin` | src/app/auth/main.py:279-301 | a session comes only from the right origin and the CSRF token of the session or of a live bootstrap record |
| `Gateway.Gate.HandleLogout` | src/app/auth/main.py:304-313 | the cookie is cleared if and only if the response is 204, and then the session is dead; a 204 means the right origin and the token of the live session or else bootstrap record, a 403 or 422 changes nothing |
| `Gateway.Gate.HandleAuthorize` | src/app/auth/main.py:316-331 | success means an admission, with origin and token checked for unsafe methods; a rejection, failed CSRF included, changes nothing |
| `Gateway.Gate.Handle` | src/app/auth/main.py:199-331 | whatever the endpoint and the faults, a changed session cookie means that the old session is dead |
| `GatewayAnswers.StatusMeans` | src/app/auth/main.py:199-223 | which status request is answered how, and which one makes a bootstrap record |
| `GatewayAnswers.LoginMeans` | src/app/auth/main.py:226-249 | a started login stores its state and uses up the one before it |
| `GatewayAnswers.CallbackMeans` | src/app/auth/main.py:252-276 | a callback logs in exactly with a usable record of the same state and the provider's consent, and uses the record up in any case |
| `GatewayAnswers.DevLoginMeans` | src/app/auth/main.py:279-301 | a development login is refused with the status of the first check that fails, and otherwise logs in |
| `GatewayAnswers.LogoutMeans` | src/app/auth/main.py:304-313 | a logout is done if and only if the request is plain, from the own origin and with the token of the live session or else bootstrap record, and the store works; a refused one changes nothing |
| `GatewayAnswers.AuthorizeMeans` | src/app/auth/main.py:316-331 | a request is let through if and only if it passes every check, and changes a record only then |
| `Gateway.ResponseAccounted` | src/app/auth/main.py:160-223 | one delivered response keeps the account of all tokens ever delivered |
| `Gateway.Browse` | src/app/auth/main.py:160-313 | over any sequence of requests of one browser among anything others do, the responses are the handlers' on the states of their moments, the cookie is what they set, and every session token they ever delivered except the one in the cookie is dead |
| `Gateway.AnswerDescends` | src/app/auth/main.py:199-331 | whatever the endpoint and the faults, an answer adds no record but one under the drawn token, changes no kind and no expiry, and revives no dead session |
| `Gateway.AnswerSettles` | src/app/auth/main.py:199-331 | an answer that changes the session cookie leaves the old session dead |
| `Gateway.EverySessionAccounted` | src/app/auth/main.py:160-331 | the account of all delivered session tokens holds after every prefix of every sequence of events |
| `Gateway.DroppedForGood` | src/app/auth/main.py:160-331 | a delivered token that has left the cookie never comes back to it and is admitted at no later moment, by nobody |
| `PictureParents.CheckBlock` | src/app/loaders/prepared_pdf_loader.py:189-205 | the guarded walk ends at a root, or the relation is not sound |
| `PictureParents.Validate` | src/app/loaders/prepared_pdf_loader.py:189-205 | validation accepts if and only if the parents form a forest of images whose pages cover their children's, references and ids in accord |
| `PictureParents.WhatIsAccepted` | src/app/loaders/prepared_pdf_loader.py:189-205 | and that is: each block has no parent or a picture of the name it gives, on all the pages of the block, and no chain of parents, however long, comes back to a block |
| `PictureParents.PagesGrow` | src/app/loaders/prepared_pdf_loader.py:189-205 | pages are included along the whole chain, not only one step |
| `PictureParents.IsUnder` | src/app/loaders/prepared_pdf_loader.py:272-286 | on an accepted forest the unguarded walk ends, and finds the asset's block if and only if it is above |
| `PictureParents.AssetRanges` | src/app/loaders/prepared_pdf_loader.py:272-286 | exactly the blocks at or under the asset count for it |
| `PictureParents.OverlapMeans` | src/app/loaders/prepared_pdf_loader.py:283-286 | a chunk overlaps a block if and only if they share a position; an empty chunk, if it lies strictly inside |
| `PictureParents.AssetChunks` | src/app/loaders/prepared_pdf_loader.py:272-286 | exactly the chunks that overlap the asset's block or a descendant, in order |
| `Layout.AssemblyIsValid` | src/app/loaders/pdf_extraction.py:102-115 | in both marker modes the assembled offsets pass the validator: ordered, disjoint, each slice its block's text |
| `Layout.ValidMeansWoven` | src/app/loaders/pdf_extraction.py:102-115 | the validator accepts exactly the texts that are the blocks in order with something in between, under the ranges at which they stand there |
| `Layout.Assemble` | src/app/loaders/pdf_extraction.py:172-188 | the loop writes those offsets and that text |
| `Layout.AttributedExactly` | src/app/loaders/prepared_pdf_loader.py:248-256 | with covering chunks a range is attributed if and only if it starts before the end of the text or right after its own marker |
| `Layout.CreditedExactly` | src/app/loaders/prepared_pdf_loader.py:248-256 | a chunk is credited with a block if and only if it has a position of the block, of the place of an empty one, or of the page marker before it; an empty chunk, if it lies strictly inside |
| `Layout.OnlyTrailingEmptyIsLost` | src/app/loaders/prepared_pdf_loader.py:248-269 | exactly one kind of block is attributed to no chunk: an empty last block without a marker of its own |
| `Layout.Provenance` | src/app/loaders/prepared_pdf_loader.py:259-269 | a chunk with offsets gets exactly the intersecting blocks in order; one without is refused |
| `Headings.HeadingCloses` | src/app/loaders/pdf_parsers/docling_adapter.py:164-167 | a heading closes exactly the open headings of equal or lower rank |
| `Headings.OneItem` | src/app/loaders/pdf_parsers/docling_adapter.py:164-167 | filtering and appending is what an item does to the open headings, and levels stay strictly rising |
| `Headings.OpenHeadingsRise` | src/app/loaders/pdf_parsers/docling_adapter.py:160-177 | the open headings at any point have strictly rising levels and are headings of the document |
| `Headings.HeadingPaths` | src/app/loaders/pdf_parsers/docling_adapter.py:160-177 | every block's path lists, in order, the headings so far that no later heading of equal or lower level has closed |
| `Headings.PathMeans` | src/app/loaders/pdf_parsers/docling_adapter.py:160-177 | a path is the texts of the headings so far that no later heading of an equal or lower level follows, in their order |
| `Headings.PictureAbove` | src/app/loaders/pdf_parsers/docling_adapter.py:178-194 | the guarded walk ends for every reference graph, with the nearest picture, none, a real cycle or a real dangling reference |
| `Headings.OutcomeIsUnique` | src/app/loaders/pdf_parsers/docling_adapter.py:178-194 | and no second outcome can be explained |
| `Fusion.AddList` | src/app/services/retrieval_service.py:96-111 | one list's pass adds its shares and keeps the chunk first met |
| `Fusion.Fuse` | src/app/services/retrieval_service.py:96-111 | the two accumulating loops and the sort compute the fused list |
| `Fusion.FusedIsTop` | src/app/services/retrieval_service.py:96-111 | distinct ids, length min(limit, union), nonincreasing scores with ties in order of first meeting, nothing left out precedes anything kept, and each chunk is that of the semantic list if it has the id |
| `Fusion.BetterComesFirst` | src/app/services/retrieval_service.py:96-111 | an id ranked better wherever another appears precedes it |
| `Fusion.BothBeforeOne` | src/app/services/retrieval_service.py:59-64 | with lists of at most `rrf_k + 1`, as the service fetches them, an id in both precedes every id in one |
| `Fusion.BoundExactly` | src/app/services/retrieval_service.py:96-111 | for list lengths `m` and `n`, every id in both precedes every id in one in all such lists if and only if `(m - 1)(n - 1) < (rrf_k + 1)^2` |
| `Fusion.BeyondTheBound` | src/app/services/retrieval_service.py:96-111 | beyond it, the last id of both lists comes behind the first id of one |
| `Fusion.TrimmedCandidates` | src/app/services/retrieval_service.py:59-94 | fusing more candidates and trimming gives the list of the smaller limit |

## Left out

- Certification.ReconcileCatalog: the dry run and the report's counters and warnings are not modelled; the registry does not change between the two reads.
- Store.PublishMetadata: the display clean-up of titles and file names is a parameter; that cleaning a cleaned title changes nothing is not claimed.
- Reconcile.CertifiedAgrees: falsy metadata values that are not strings (`false`, `0`, `[]`, `{}`) and the difference between a null and a missing member are not distinguished.
- CertifiedRows.WhatIsCertified: nor are they here.
- WarmSource.ListWarmable: `related_asset_ids` that are no list of strings, and workspace values that are no strings, count as a listing error.
- Warmer.Warm: the compatibility lane for stores without a catalog and its batched upsert are not modelled; external cancellation is not either.
- EmbeddingCache.EstimateIsExact: no other writer fills the cache meanwhile, as the source assumes for a dry run; vectors are exact reals.
- ConcurrentWriters.EveryCommitIsAStep: no profile is registered during an interleaved run, registration being an operator's task; the write-back of recovered payloads is one statement; the warm's listing of its source is a parameter.
- ConcurrentWriters.WritersAreSerial: where a transaction does see `ready` change, no order may explain the shared rows; that some order does explain a given run of this kind is not excluded.
- WarmAgreement.WarmAgreesExactly: says nothing of listings with an empty chunking profile, the ones `Warming.ListingIsPublishable` singles out.
- WarmAgreement.AtomicExactly: nor does it; convergence of retries holds for those too.
- Runs.IngestItemsSound: metadata a chunker attaches to a chunk does not override the workspace, document or profile ingestion gives it.
- Runs.WhatRegistrationDoes: provisioning a known name again, which may give it other storage, is not modelled.
- DirectoryScan.IngestDirectory: dry runs, single files (which are never cleaned up after) and the asset counts of the report are not modelled.
- Publication.Database.RecordAssets: the rows that order a chunk's assets for display are not modelled.
- Writers.WritersAreSafeAndLive: row-level engine locks and statements outside a transaction are not modelled; each ingested file is a job of its own.
- Listing.ListingExists: times and ids are compared as whole numbers and code points, as the column types and the "C" collation do.
- Traversal.ChainIsListing: one list request reads the clock once; a request that changes workspace, subject or page size is refused (`Traversal.WhyAListIsRefused`) and so is no part of a chain.
- Browser.ListShownIsPrefix: aborted requests and a change of workspace are not modelled; responses come in the order of their requests.
- JsonText.UnescapeEscaped: surrogate pairs and `\u` escapes beyond the ones the printer writes are not modelled.
- EventStream.ReadIsSplit: works on characters; UTF-8 decoding and the byte order mark are not part of this model.
- StreamClient.ClientLanguages: an aborted signal, a sign-out elsewhere during the stream and exceptions thrown by the callbacks are not modelled.
- JsonValue.ParseDumps: numbers are kept as the numerals they are printed as; `NaN` and infinities, which JSON has no text for, are not modelled.
- AnswerStream.Generate: asset and source references are printed from typed fields; how an answer's sources are chosen is a parameter.
- Gateway.Browse: one payload string stands for CSRF token, login state and identity; provider selection, return paths, cookie attributes and the identity provider's protocol are parameters or omitted. Parallel requests of one browser are not claimed to leave one session.
- PictureParents.Validate: the other checks of the loader (hashes, manifests, boxes, asset files) are flat and left out.
- Fusion.FusedIsTop: floating-point rounding is not modelled; scores are exact reals.
- Asset file storage, search queries, Qdrant, provider clients, routing, React components other than the document panel's loading, and the other document formats are I/O or would add only easy members.
