# Verification of the knowledge base's core protocols

This project models the parts of the repository whose correctness does not show in
one function body, and proves what they promise. `dafny verify dfyconfig.toml`
checks everything, with automatic induction turned off: every induction is written out.

## What is modelled

**The store and its recovery** (`tables`, `store`, `commits`, `reindex`, `recovery`,
`opening`, `runs`, `recovery_runs`, `documents`, `limits`, `report`, `database`). A `Store` is
the whole persistent state: documents, chunk rows with their vectors, mention
edges, the embedding field's and the index's dimension, and the metadata with the
`reindex_in_progress` marker. A `Commit` is one committed write or transaction;
opening and reindexing are sequences of commits, and a crash is a prefix of such a
sequence. Each chunk row also records which model and tokenizer produced it,
which the program does not store: this is what "a chunk belongs to a
configuration" means in the theorems. `Database.Db` is the program itself: its methods
commit one write at a time against an arbitrary sequence of outcomes (committed,
write conflict, failed), and are proved to commit exactly those plans. Embedder,
tokenizer and entity extractor are arbitrary functions of configuration and text; the first two
may fail. Defining the vector index over stored rows is refused when a row's vector has
another length, which is what `reindex.rs:231-233` guards against.

`Coherent` says what the metadata may be trusted for in every reachable state,
marker by marker; `Serves(s, c)` says that every chunk, the field, the index and all
metadata belong to `c`. Runs are arbitrary histories of opens (normal and for
reindexing), reindexes with any configuration cut after any commit, uploads, deletes and
process deaths. The tables stay well formed in all of them (`Runs.TablesAlwaysHold`). For the
metadata to stay true as well, callers must keep a discipline: an upload goes
through a handle whose configuration is the recorded one (a handle from a normal open
always is), a reindex is started only where it repairs the field (the first open's
metadata is committed), and completed only where no chunk-less document would keep
stale rows. `Limits` shows with concrete stores that none of the three can be dropped.

**Vault autosave** (`autosave`, `autosave_serial`, `autosave_rotation`). The hook's refs are one state, the
events that change them one step function, and `AutosaveHook` is the hook as a class
with one method per event. A history of edits, sessions and PUTs is kept beside it
to state what was sent where.

**Blog posts under racing PUTs** (`blog_race`, `blog_outcomes`, `blog_alone`, `blog_store`). Any
number of PUTs on one post, each with a program counter, interleaved arbitrarily, each operation allowed
to fail. `BlogStore.Server` is the same handlers run alone, with creation and
deletion; a lone PUT of the race has the outcomes of its `UpdateDocument` (`BlogAlone.Outcome`).

**Chunking and headings** (`headings`, `fences`, `chunker`, `chunker_laws`), **section hierarchy**
(`sections`), **graph expansion** (`related`, `expansion`, `expansion_hits`,
`expansion_ties`) and **rank fusion** (`fusion`, over `ranking` and `sorting`). Loops of
the source are loops here, proved against specifications that do not mention them:
line-by-line fences, window coverage, nearest lower section, shortest paths, sums of rank
weights. Scores are real numbers.

**Stream parsers** (`lines`, `llm_stream`, `sse`, `sse_calls` for what reaches the client's
handlers, and `sse_standard` for the standard its parser is compared with) and the **canonical JSON** that is hashed
as the tokenizer's fingerprint (`canonical_json`, with `versions`).

## Where the code and its documentation differ

- `open` calls applying the schema to an existing store a no-op, which can redefine nothing.
  On an existing store that is so exactly when the index is there (`Opening.SchemaIsNoOpIff`), as it
  is behind the gate (`Opening.SchemaIsNoOpAfterGate`). Opening for a reindex skips the gate: after
  an interrupted dimension change it recreates the removed index, with the dimension of the
  configuration at hand (`Limits.SchemaRedefinesIndex`, a store that such a history reaches).
- The management path is there to open a store whatever its state. It opens exactly when the
  index is there or every stored vector has the configured dimension
  (`RecoveryRuns.ManagementPathOpensIff`): always when the configuration has the field's dimension,
  or when no dimension change is under way. A dimension change that died after a rebuild can be
  resumed, but not undone (`Limits.OldDimensionIsLockedOut`). Within a reindex the index definition
  is never refused (`Recovery.ReindexDefinesItsIndex`).
- The initial metadata is written atomically so that no half-initialised store can
  arise. A crash between the schema and that transaction still leaves one, and a reindex under
  another dimension then completes without repairing the field
  (`Limits.HalfInitialisedStoreIsNotRepaired`; the exact condition is
  `Recovery.CompletedRunServesIff`).
- A document that the new tokenizer cuts into no chunk keeps its old rows through a
  reindex that does not change the dimension (`Limits.ChunklessDocumentKeepsStaleRows`).
- The retry button can be used while a PUT runs, and then sends it a second time
  (`AutosaveSerial.RetryWhileRunningSendsTwice`, exactly when: `AutosaveSerial.RetrySingleIff`).
- The autosave status can stay "saving" after the edit has been acknowledged: when the route reaches
  the new document before the query cache has been refreshed (`AutosaveRotation.EarlyRouteLeavesSaving`,
  exactly when: `AutosaveRotation.SavingStuckIff`).
- A PUT that reads the registry after another PUT has moved the row skips both the
  ownership check and the migration, and is told success for a document no row
  points at (`BlogOutcomes.LateReaderSeesNoPost`, `BlogOutcomes.LateReaderLeavesOrphan`, and from start
  to end `BlogOutcomes.LateReaderRace`; exactly when all successes are honest:
  `BlogOutcomes.SuccessNamesRowIff`).
- Expanded hits are said never to tie direct hits. One can, exactly when some direct score is
  that of one of the first three direct hits times 0.95, 1/2, 1/3 and so on to one over the
  number of hops, at most 100 (`ExpansionTies.TiesIff`; `ExpansionTies.TieExample` has scores 1.0 and
  0.95, `ExpansionTies.TieExampleTwoHops` 1.0 and 0.5). An expanded hit is strictly below the hit it came from exactly when that hit has
  a positive score (`ExpansionHits.WeakerIff`).
- Section names are said to identify entities; their record ids drop four characters. Two headings that
  differ only in those are one entity, so the later takes over the earlier one's edge
  (`Sections.SameIdTakesOver`, `Sections.ApostropheTakesOver`), and a nested heading of nothing else
  fails the whole transaction (`Sections.NestedQuotesFail`, `Sections.QuotesFail`; exactly when:
  `Sections.LinksIff`). So does an entity name of nothing else: a link that the old chunk boundary cut
  in two can be stored, and then no reindex with larger windows ever completes
  (`Limits.LargerWindowsNeverComplete`; exactly when: `Recovery.CompletesIff`).
- The frame cap makes the language model's transcript depend on how the bytes were cut,
  exactly when something is delivered before an oversized line
  (`LlmStreams.CutsDoNotMatterIff`; `LlmStreams.CutsMatter` is such a stream).
- The client's event parser differs from section 9.2.6 of the WHATWG HTML Living Standard: it
  dispatches an event unfinished at the end of the stream (`StandardEvents.UnfinishedIsHeard`) and a
  name without data (`StandardEvents.NameAloneIsHeard`), keeps an empty name
  (`StandardEvents.EmptyNameIsKept`), and ends no line at a lone carriage return
  (`StandardEvents.LoneReturnJoins`). On text without lone carriage returns the first three are all
  (`StandardEvents.AgreesIff`); on any text they are all once its line ends are normalised
  (`StandardEvents.NormalisedAgreesIff`).

## Model

| member | source | states |
|---|---|---|
| Tables.DeleteKeepsAnchored | crates/skb-core/src/reindex.rs:425-428 | deleting a document's mentions before its chunks leaves no mention of a chunk that is gone |
| KnowledgeStore.ClearKeepsWellFormed | crates/skb-core/src/ingest.rs:226-227 | clearing a document keeps every table invariant and removes all its rows |
| KnowledgeStore.FillKeepsWellFormed | crates/skb-core/src/ingest.rs:276-309 | indexing a cleared document keeps: indices 0..k-1 once each, vectors of the field's length, owners and mention targets that exist |
| KnowledgeStore.ClearContents | crates/skb-core/src/reindex.rs:424-433 | clearing one document leaves chunks and mentions of all others as they were |
| KnowledgeStore.FillContents | crates/skb-core/src/reindex.rs:435-473 | after indexing, the document's chunks and their mentions are those of its pieces in order, and no other document's changed |
| Commits.ApplyKeepsWellFormed | crates/skb-core/src/ingest.rs:123-201 | every single commit (upload, delete, rebuild, schema, metadata) keeps the store well formed, with at most one document per sha256 |
| Reindex.InterruptedRun | crates/skb-core/src/reindex.rs:126-188 | wherever a reindex dies after its marker, the store is described truly by a marker of the same path, with documents untouched |
| Reindex.RebuildsResult | crates/skb-core/src/reindex.rs:249-316 | the rebuild loop leaves each document it rebuilds freshly indexed, whatever was there, and the others alone |
| Recovery.CompletedRun | crates/skb-core/src/reindex.rs:126-205 | the exact store after a completed reindex, document by document: contents, metadata, field and index |
| Recovery.ReindexedDocument | crates/skb-core/src/reindex.rs:126-205 | after a completed reindex a document that has content and is cut into any pieces at all has one row per piece, with the piece, its vector, the model, the tokenizer and the entities extracted from it; one without has nothing after a dimension change and its old rows otherwise |
| Recovery.MetasAfter | crates/skb-core/src/reindex.rs:169-199 | every key of the metadata then describes the new configuration, and the marker is gone |
| Recovery.CutAfterPrologue | crates/skb-core/src/reindex.rs:138-168 | cut anywhere after its prologue, a run that changes the dimension leaves stored dimension and model that match the schema and every row, and the marker that it has to be finished |
| Recovery.CompletedRunServesIff | crates/skb-core/src/reindex.rs:53-199 | a completed reindex makes the store serve the configuration if and only if it redefined the field or found it right, and no skipped document kept stale rows |
| Recovery.CompletesIff | crates/skb-core/src/reindex.rs:249-316 | an uninterrupted reindex completes if and only if every document can be tokenized, embedded with vectors that fit, and linked to entities and sections that all have record ids; earlier runs have no influence |
| Recovery.ReindexDefinesItsIndex | crates/skb-core/src/reindex.rs:231-245 | a reindex that gets as far as defining its index defines it: its scan only meets vectors of the target dimension |
| Recovery.CompletedRunsAgreeIff | crates/skb-core/src/reindex.rs:53-199 | reindexes of two stores with the same documents complete both or neither, and end in the same store, up to record ids, if and only if the documents they skip keep the same rows |
| Recovery.SkippedUntouched | crates/skb-core/src/reindex.rs:281-286 | an interrupted reindex that leaves the dimension alone leaves the documents it skips alone |
| Opening.NeverBlockedByDuplicates | crates/skb-core/src/db.rs:145-191 | the one-time duplicate check never refuses a well-formed store |
| Opening.SchemaIsNoOpAfterGate | crates/skb-core/src/lib.rs:211-216 | behind the mismatch checks, applying the schema changes nothing |
| Opening.SchemaIsNoOpIff | crates/skb-core/src/lib.rs:211-216 | on an existing store, applying the schema changes nothing if and only if the index is there |
| Opening.FirstOpen | crates/skb-core/src/lib.rs:173-210 | a first open cut anywhere leaves an empty, coherent store; once its metadata is in, one that is initialised for the configuration |
| Opening.OpenKeeps | crates/skb-core/src/lib.rs:104-226 | every prefix of an opening goes through, unless it opens for a reindex over rows its index does not fit; whatever commit it stops after, data and marker are untouched and the store stays coherent |
| Opening.NormalOpenServes | crates/skb-core/src/lib.rs:104-226 | a normal open that succeeds hands out a store whose chunks, field, index and metadata all belong to the configuration |
| Opening.OpensIff | crates/skb-core/src/lib.rs:104-226 | a normal open goes through if and only if the directory is new, or no reindex is unfinished, the model is the recorded one and dimension, token limit and fingerprint are, where they are recorded |
| Opening.OpensForReindex | crates/skb-core/src/lib.rs:58-63 | an open for a reindex is not refused by any check |
| Opening.NormalOpenRecords | crates/skb-core/src/lib.rs:150-226 | a normal open leaves the token limit and everything about the tokenizer recorded |
| Opening.FingerprintLast | crates/skb-core/src/lib.rs:565-612 | an opening cut anywhere has not written the fingerprint yet: it comes last |
| Opening.ServingStoreOpens | crates/skb-core/src/lib.rs:105-170 | conversely, a store that serves the configuration and has no unfinished reindex opens |
| Runs.AnyPrefixCoherent | crates/skb-core/src/reindex.rs:126-199 | a reindex that finds or redefines the right field leaves a coherent store after any commit, if completed one without stale skipped rows, and no "dim" marker unless the dimension path was taken |
| Runs.TablesAlwaysHold | crates/skb-core/src/lib.rs:54-226 | in every history from an empty directory, through any handles: chunk indices 0..k-1 once each, owners and mention targets that exist, vectors of the field's length, one document per sha256 |
| Runs.InvariantHolds | crates/skb-core/src/lib.rs:54-226 | every disciplined history of opens, cut reindexes, uploads, deletes and crashes keeps tables and metadata true to each other |
| Runs.CrashSafety | crates/skb-core/src/lib.rs:104-226 | in every disciplined history from an empty directory, whoever holds a normal handle holds a store that serves its configuration |
| RecoveryRuns.FieldFixedOnceInitialised | crates/skb-core/src/lib.rs:178-205 | once the initial metadata is committed, every reindex repairs the field |
| RecoveryRuns.NormalHandleIsDisciplined | crates/skb-core/src/lib.rs:242-252 | uploads and deletes through a normal handle meet the discipline without further conditions |
| RecoveryRuns.InterruptedHistory | crates/skb-core/src/reindex.rs:60-68 | any number of interrupted reindexes keep the documents and never weaken a "dim" marker |
| RecoveryRuns.ManagementPathOpensIff | crates/skb-core/src/lib.rs:58-63 | a store opens for a reindex if and only if its index is there or all its vectors have the configured dimension; always when no dimension change is under way or the configuration has the field's dimension |
| RecoveryRuns.RecoveryConvergesIff | crates/skb-core/src/reindex.rs:53-199 | after any interrupted reindexes a completed one is possible if and only if it was before; it ends where a single one would have if and only if the documents it skips kept their rows, and serves and opens if and only if those are not stale |
| RecoveryRuns.RecoveryConverges | crates/skb-core/src/reindex.rs:53-199 | so it does when no document is skipped, or the dimension has to change anyway |
| RecoveryRuns.RetryingConverges | crates/skb-core/src/reindex.rs:53-199 | and whenever all attempts were made under the same configuration, whatever is skipped |
| RecoveryRuns.UploadTwice | crates/skb-core/src/ingest.rs:131-144 | repeating an upload unforced changes nothing |
| RecoveryRuns.UploadCoherentIff | crates/skb-core/src/ingest.rs:168-201 | a new upload keeps the metadata true of every chunk if and only if the handle's model and tokenizer are the recorded ones |
| Documents.SavesIff | crates/skb-core/src/ingest.rs:208-316 | a content is stored if and only if it is tokenized, embedded with vectors that fit and linked to records, and it is new and comes as new or stored and comes to replace |
| Documents.Creates | crates/skb-core/src/ingest.rs:208-316 | a new content adds one document with the rows of its pieces, and changes nothing else |
| Documents.Replaces | crates/skb-core/src/ingest.rs:208-316 | a content stored before keeps the place and id of its document, which gets the new title, text and rows; nothing else changes |
| Documents.UploadStores | crates/skb-core/src/ingest.rs:123-201 | an upload leaves the store alone when the content is stored and not forced, has no pieces or does not fit, and otherwise stores it |
| Documents.DeleteRemoves | crates/skb-core/src/crud.rs:399-457 | a deletion takes out the document and its rows and leaves all other documents and rows; a missing id changes nothing |
| Limits.HalfInitialisedStoreIsNotRepaired | crates/skb-core/src/reindex.rs:55-59 | a store without a stored dimension can be reindexed and opened with the field still at the old dimension |
| Limits.ChunklessDocumentKeepsStaleRows | crates/skb-core/src/reindex.rs:281-286 | a chunk-less document keeps rows of the old model through a completed reindex, and the store opens |
| Limits.LargerWindowsNeverComplete | crates/skb-core/src/graph.rs:145-160 | a stored document that no reindex under larger windows ever completes with, because they reveal an entity without a record id |
| Limits.UploadThroughMismatchedHandleMixesModels | crates/skb-core/src/lib.rs:226-229 | an upload through a handle opened for a reindex mixes two models in a store that opens |
| Limits.SchemaRedefinesIndex | crates/skb-core/src/lib.rs:211-216 | a reachable store on which applying the schema is not a no-op: the index gets a dimension the field does not have |
| Limits.OldDimensionIsLockedOut | crates/skb-core/src/lib.rs:58-63 | a reachable store that opens for a reindex under the new dimension only |
| Report.ReportCountsRows | crates/skb-core/src/reindex.rs:306-313 | after a dimension change the store holds exactly the pieces of all documents, in order, and the report counts them: documents, chunks, tokens, entity names |
| Report.ReportCountsPieces | crates/skb-core/src/reindex.rs:89-124 | the figures of any run or dry run: documents with any piece, pieces, their tokens, and different entity names in them |
| Database.Db.Commit | crates/skb-core/src/db.rs:57-88 | one write either takes effect as a whole or leaves the store as it was |
| Database.Db.InsertRows | crates/skb-core/src/reindex.rs:435-473 | the loops over chunks and entities build exactly the specified rows and mentions, or fail on the first vector of the wrong length or the first name without a record id |
| Database.Db.InsertDocument | crates/skb-core/src/reindex.rs:435-478 | then the sections are linked, or the transaction fails |
| Database.Db.RebuildInTransaction | crates/skb-core/src/reindex.rs:417-479 | the transaction's view after deleting, inserting and linking is the specified rebuild of that document, or it fails exactly when that does |
| Database.Db.RebuildDocumentRetrying | crates/skb-core/src/reindex.rs:368-415 | at most eight attempts; success commits one rebuild, failure leaves the store as it was and had a failed operation or eight conflicts |
| Database.Db.RebuildNext | crates/skb-core/src/reindex.rs:265-311 | a document without content or pieces is skipped, any other is rebuilt by one commit or ends the run with nothing committed for it |
| Database.Db.RebuildAll | crates/skb-core/src/reindex.rs:249-316 | commits exactly the rebuilds of the documents in order, or a proper prefix of them, and reports the tally |
| Database.Db.DryRun | crates/skb-core/src/reindex.rs:89-124 | succeeds if and only if every document with content tokenizes, writes nothing, and reports what a completed run reports |
| Database.Db.Begin | crates/skb-core/src/reindex.rs:126-167 | commits the marker and, on a dimension change, wipe, field, dimension and model in that order, or a proper prefix |
| Database.Db.Finish | crates/skb-core/src/reindex.rs:169-199 | commits index, metadata and marker removal in that order, or a proper prefix |
| Database.Db.ReindexSteps | crates/skb-core/src/reindex.rs:45-205 | a reindex commits exactly its plan and reports the tally, or stops after a proper prefix of it |
| Database.Db.Reindex | crates/skb-core/src/reindex.rs:45-205 | a completed run leaves exactly the store its plan specifies; completed or not, it leaves a coherent store if the field is fixed, when completed under the exact condition of `CompletedRunServesIff` |
| Database.Db.CheckStored | crates/skb-core/src/lib.rs:105-171 | the stored metadata is compared, and missing values backfilled, as the gate specifies |
| Database.Db.Migrate | crates/skb-core/src/db.rs:136-193 | schema, then the one-time duplicate check and its mark |
| Database.Db.SyncTokenizer | crates/skb-core/src/lib.rs:565-612 | the fingerprint is compared and the tokenizer's metadata written, fingerprint last |
| Database.Db.OpenSteps | crates/skb-core/src/lib.rs:65-239 | opening commits exactly its plan, or is refused after a prefix of it |
| Database.Db.Open | crates/skb-core/src/lib.rs:65-239 | opening keeps a coherent store coherent, and a normal open that succeeds leaves one that serves the configuration |
| Database.Db.StoreAndIndex | crates/skb-core/src/ingest.rs:208-316 | the upload's transaction is the specified creation, or replacement in place that keeps the document's id, and fails exactly when that does |
| Database.Db.Upload | crates/skb-core/src/ingest.rs:123-201 | one transaction or nothing; skipped exactly for a stored sha256 without force, empty exactly for a text without chunks; created and updated told apart |
| Database.Db.Delete | crates/skb-core/src/crud.rs:399-457 | removes the document with its chunks and mentions and nothing else, or reports it missing |
| Autosave.Isolation | web/apps/vault/src/components/useAutosave.ts:67-207 | in every run each PUT carries an input entered in the same session, on the document it goes to or one that became it through this session's own save responses |
| Autosave.IsolationFromMount | web/apps/vault/src/components/useAutosave.ts:67-207 | the same from mounting on, spelt out for the PUTs and the sessions |
| Autosave.OnlyLiveSessionSends | web/apps/vault/src/components/useAutosave.ts:151-189 | an event sends at most one PUT, for the live session and its current document |
| Autosave.NothingStaleIsSent | web/apps/vault/src/components/useAutosave.ts:67-104 | once a session has ended by navigation or unmount, none of its drafts is ever sent; after unmount nothing is |
| Autosave.AutosaveHook.OnSchedule | web/apps/vault/src/components/useAutosave.ts:191-207 | an edit becomes the pending draft of the live session and restarts the timer |
| Autosave.AutosaveHook.OnTimer | web/apps/vault/src/components/useAutosave.ts:172-204 | the pending draft is sent, queued behind a running PUT, or dropped when its session is over |
| Autosave.AutosaveHook.OnError | web/apps/vault/src/components/useAutosave.ts:147-170 | a failure is shown only for the current request, and the queue settles |
| Autosave.AutosaveHook.OnSuccess | web/apps/vault/src/components/useAutosave.ts:117-170 | a response for the current request saves in place or starts a rotation; a stale one only settles |
| Autosave.AutosaveHook.OnInvalidated | web/apps/vault/src/components/useAutosave.ts:135-142 | the rotation goes on to navigate only if the request is still current |
| Autosave.AutosaveHook.OnNavigated | web/apps/vault/src/components/useAutosave.ts:138-170 | after the navigation the queue settles on whatever document is then open |
| Autosave.AutosaveHook.OnSettled | web/apps/vault/src/components/useAutosave.ts:151-169 | a queued draft of the live session is sent to the document now open, anything else frees the slot |
| Autosave.AutosaveHook.OnRoute | web/apps/vault/src/components/useAutosave.ts:67-88 | landing on the rotation target continues the session, any other navigation ends it and drops its drafts |
| Autosave.AutosaveHook.OnRetry | web/apps/vault/src/components/useAutosave.ts:209-218 | the last request is sent again if it is current |
| Autosave.AutosaveHook.OnUnmount | web/apps/vault/src/components/useAutosave.ts:90-98 | the session ends with its queue and timer |
| AutosaveSerial.SerialisedAndNothingLost | web/apps/vault/src/components/useAutosave.ts:151-207 | with retry only when idle or with nothing current to send: one PUT at a time, in edit order; the newest edit of the live session is waiting, queued or sent last; "saved" at rest means it is the one acknowledged |
| AutosaveSerial.RetrySendsNewest | web/apps/vault/src/components/useAutosave.ts:209-218 | retrying at rest sends the newest edit of the session |
| AutosaveSerial.RetrySingleIff | web/apps/vault/src/components/useAutosave.ts:209-218 | retry keeps one PUT in flight if and only if none was running or nothing current is to be sent |
| AutosaveSerial.RetryWhileRunningSendsTwice | web/apps/vault/src/components/useAutosave.ts:172-218 | five events after which the error status shows while a PUT runs, and retry doubles it |
| AutosaveRotation.ContinuesIff | web/apps/vault/src/components/useAutosave.ts:67-88 | a route change continues the session, with all that is pending, queued and running, if and only if it goes to the document that the running save of the session was answered with; any other ends it |
| AutosaveRotation.RotationsLoseNothing | web/apps/vault/src/components/useAutosave.ts:67-189 | in every run whose only route changes are where the hook navigates, it is one session throughout, the newest edit of all is waiting, queued or sent last, and at rest the status says whether it was acknowledged or failed |
| AutosaveRotation.EarlyRouteLeavesSaving | web/apps/vault/src/components/useAutosave.ts:135-142 | five events after which "saving" stays with nothing under way and the edit acknowledged |
| AutosaveRotation.SavingStuckIff | web/apps/vault/src/components/useAutosave.ts:135-142 | it stays if and only if the route has moved on before the query cache answers and no later edit waits |
| BlogRace.RunInvariant | crates/skb-server/src/handlers/documents.rs:207-276 | in every interleaving of any number of PUTs, with any operations failing: the row is where it was or at the replacement of the one PUT that moved it, otherwise untouched; replacements are separate documents, and no other document changes |
| BlogOutcomes.RowAlwaysLive | crates/skb-server/src/handlers/blog.rs:141-168 | there is always exactly one row for the post, it points at a live document, and at most one migration succeeds |
| BlogOutcomes.RowStaysIntact | crates/skb-server/src/handlers/blog.rs:141-168 | in every race the post keeps its author and published flag in exactly one row, and other rows do not change |
| BlogOutcomes.ContentsStayUnique | crates/skb-server/src/handlers/documents.rs:222-276 | in every race, whatever the contents and faults, no two documents come to hold the same content |
| BlogOutcomes.LosersCleanUp | crates/skb-server/src/handlers/documents.rs:236-248 | a PUT that fails has removed its own replacement unless that removal failed |
| BlogAlone.OnlyOwnersMigrate | crates/skb-server/src/handlers/documents.rs:222-229 | in every race, with any faults, only an owner moves the row, one that has read it without owning it ends as forbidden without a replacement, and only such a one is forbidden |
| BlogAlone.StrangersChangeNothing | crates/skb-server/src/handlers/documents.rs:222-276 | any number of PUTs by sessions that do not own the post change no document and no row |
| BlogAlone.LonePut | crates/skb-server/src/handlers/documents.rs:207-276 | a PUT of the race that runs alone is over after six operations with an outcome of `update_document`; without a fault its answer is settled by what is stored and who asks |
| BlogOutcomes.SuccessNamesRowIff | crates/skb-server/src/handlers/documents.rs:222-276 | in a complete fault-free race of fresh contents, all successes name the row's document if and only if all had read the registry before the row moved |
| BlogOutcomes.OneSurvivor | crates/skb-server/src/handlers/documents.rs:233-276 | then one PUT at most succeeds, and the documents are those from before with its replacement in place of the original |
| BlogOutcomes.SomePutSucceeds | crates/skb-server/src/handlers/documents.rs:233-276 | a complete fault-free race of owners with fresh contents has a success |
| BlogOutcomes.LateReaderSeesNoPost | crates/skb-server/src/handlers/documents.rs:226-229 | a PUT that reads the registry after the row moved takes no ownership check and plans no migration |
| BlogOutcomes.LateReaderLeavesOrphan | crates/skb-server/src/handlers/documents.rs:230-276 | such a PUT is told success for a document no row points at |
| BlogOutcomes.LateReaderRace | crates/skb-server/src/handlers/documents.rs:230-276 | a complete fault-free race in which a PUT without ownership is told success for a document no row points at |
| BlogStore.Server.UpdateDocument | crates/skb-server/src/handlers/documents.rs:207-276 | run alone: the document replaced with its row, or kept because the content is stored or empty, or an error that is one of missing, forbidden and failed, with everything as before unless the compensation failed; the same outcomes as a lone PUT of the race |
| BlogStore.Server.MigrateBlogPost | crates/skb-server/src/handlers/blog.rs:141-168 | moves the row with author and published flag, or reports a conflict when there is none |
| BlogStore.Server.CreateBlogPost | crates/skb-server/src/handlers/blog.rs:93-130 | registers a document under its author without touching other rows |
| BlogStore.Server.CreateDocument | crates/skb-server/src/handlers/documents.rs:49-82 | a blog document whose registration fails is removed again unless that removal fails |
| BlogStore.Server.DeleteDocument | crates/skb-server/src/handlers/documents.rs:314-347 | the row goes first; a failed deletion of the document restores author and published flag unless the restore fails |
| Headings.HeadingStarts | crates/skb-core/src/tokenize.rs:181-217 | the single pass over the text finds the offsets of the line-by-line specification |
| Headings.TrimsAround | crates/skb-core/src/tokenize.rs:188-189 | trimming takes off the spaces around a text and nothing else |
| Headings.ScanLine | crates/skb-core/src/tokenize.rs:190-202 | a line is a heading, opens a fence, or closes one only with the same marker |
| Headings.IsHeadingLine | crates/skb-core/src/tokenize.rs:219-230 | looking at seven characters decides one to six hashes and a space |
| Headings.HeadingsIncreasing | crates/skb-core/src/tokenize.rs:181-217 | offsets found are strictly increasing and inside the text |
| Headings.IsHeadingIff | crates/skb-core/src/tokenize.rs:219-230 | a heading line is one to six hashes and a space |
| Headings.HeadingFoundIff | crates/skb-core/src/tokenize.rs:181-217 | an offset is found if and only if it begins a line that is a heading outside every fence opened by earlier lines |
| Fences.FenceRules | crates/skb-core/src/tokenize.rs:190-199 | a fence is three backticks or three tildes at the start of a line, and only its own kind closes it |
| Fences.UnfencedIsFound | crates/skb-core/src/tokenize.rs:181-217 | a heading line with no fence line before it is found |
| Fences.FencedIsNotFound | crates/skb-core/src/tokenize.rs:190-199 | between the first fence line and the next of its kind no heading is found, whatever lines of the other kind there are |
| Fences.FoundAfterFence | crates/skb-core/src/tokenize.rs:190-199 | behind that next line headings are found again |
| Headings.HeadingAtOwns | crates/skb-core/src/tokenize.rs:234-245 | the heading of a chunk is the first one inside it, or else the nearest before it |
| Headings.HeadingAtNone | crates/skb-core/src/tokenize.rs:241-243 | a chunk before every heading has none |
| Chunker.NextEnd | crates/skb-core/src/tokenize.rs:111-146 | the end chosen for a window is that of the specification, and the branch that skips a range cannot be reached |
| Chunker.WindowAdvances | crates/skb-core/src/tokenize.rs:131-171 | each window reaches beyond the previous chunk's end |
| Chunker.Split | crates/skb-core/src/tokenize.rs:78-174 | the loop produces one chunk per specified span: its number, its place, a content that begins with its first token, ends with its last and has each of its tokens where it is in the text, and the heading of that stretch; no tokens give none, a window of zero an error |
| ChunkerLaws.ChunksCover | crates/skb-core/src/tokenize.rs:102-173 | for all inputs, starts and ends strictly increase from token 0 to the last, sizes are 1..max, and neighbours share exactly the overlap or nothing |
| ChunkerLaws.EveryTokenCovered | crates/skb-core/src/tokenize.rs:102-173 | no token is skipped |
| ChunkerLaws.EveryTokenHeld | crates/skb-core/src/tokenize.rs:148-161 | each token of the text has its characters in the content of some chunk |
| ChunkerLaws.HeadingFreeIff | crates/skb-core/src/tokenize.rs:121-146 | a chunk has a heading inside if and only if the break there lies in what the previous chunk covered |
| ChunkerLaws.NoHeadingInside | crates/skb-core/src/tokenize.rs:114-129 | without overlap no chunk has a heading strictly inside |
| ChunkerLaws.CutsOnlyAtHeadings | crates/skb-core/src/tokenize.rs:114-129 | a chunk that is neither a full window nor the last ends right before the token that reaches past a heading |
| ChunkerLaws.ClosedForm | crates/skb-core/src/tokenize.rs:110-171 | without headings chunk k is the window at k * (max - overlap), and their number is 1 + ceil((n - max) / (max - overlap)) |
| ChunkerLaws.TokensAddUp | crates/skb-core/src/tokenize.rs:159-171 | token counts add up to the text's plus one overlap per seam |
| ChunkerLaws.ChunkCountsAddUp | crates/skb-core/src/tokenize.rs:156-161 | so do the counts that the chunks of a text without headings carry |
| Sections.ExtractSections | crates/skb-core/src/graph.rs:934-954 | the sections of a text are its headings with a name of more than two characters, in order |
| Sections.TopIsParent | crates/skb-core/src/graph.rs:965-971 | after popping, the top of the stack is the nearest preceding section of strictly lower level, or there is none |
| Sections.NearestIs | crates/skb-core/src/graph.rs:956-958 | the nearest preceding lower section is the only one with nothing as low after it |
| Sections.CleanDrops | crates/skb-core/src/graph.rs:145-160 | a record id is the name without angle brackets, backslashes and apostrophes, in order |
| Sections.LinkSections | crates/skb-core/src/graph.rs:959-1017 | the stack loop leaves the edges of linking every section to its nearest lower predecessor by record id, or fails |
| Sections.LinkedIff | crates/skb-core/src/graph.rs:145-160 | linking fails if and only if a nested section, or the one it is nested in, has a name of dropped characters only |
| Sections.LinksIff | crates/skb-core/src/graph.rs:959-1017 | whether the sections of a text can be linked does not depend on the edges there are |
| Sections.WrittenSectionsComeBack | crates/skb-core/src/graph.rs:934-954 | sections written as heading lines are extracted as they were |
| Sections.WrittenHeadingsComeBack | crates/skb-core/src/graph.rs:934-954 | of names of any length written as heading lines, exactly those longer than two characters are extracted |
| Sections.WrittenHeadingText | crates/skb-core/src/tokenize.rs:247-258 | the heading that a chunk is given is the name written on the line |
| Sections.NestedQuotesFail | crates/skb-core/src/graph.rs:151-158 | a text with a heading of dropped characters only below another one cannot be linked |
| Sections.QuotesFail | crates/skb-core/src/graph.rs:151-158 | such a text |
| Sections.SameIdTakesOver | crates/skb-core/src/graph.rs:990-1005 | in a text, headings with the same record id share one edge, which the later one takes over |
| Sections.ApostropheTakesOver | crates/skb-core/src/graph.rs:990-1005 | such a text |
| Sections.EdgesAfterLinking | crates/skb-core/src/graph.rs:990-1005 | a section's entity ends up with one edge, to the parent of the last section with its record id that has one; all other entities' edges stay |
| Sections.AtMostOneParent | crates/skb-core/src/graph.rs:990-1005 | across any number of documents, failed ones included, each entity has at most one part-of edge |
| Sections.RelinkingIsIdempotent | crates/skb-core/src/graph.rs:990-1005 | linking the same text again succeeds and leaves the same edges |
| Related.FanoutOf | crates/skb-core/src/graph.rs:599-636 | the rows a search sees are the mentioned entities and one per edge out of those queried |
| Expansion.CollectNames | crates/skb-core/src/graph.rs:600-609 | a hop asks for each unvisited entity of the frontier once, and marks exactly those visited |
| Expansion.Search | crates/skb-core/src/graph.rs:596-647 | the frontier is the one the hops' answers build, after all hops or once no new entity is left |
| Expansion.SearchReaches | crates/skb-core/src/graph.rs:596-647 | each entity in the frontier has its shortest path's decay among its entries; uncut, every entity within reach is there; cut, what is missing ranks after all that is kept; cut if and only if there are more than 100 rows |
| Expansion.SearchInNumbers | crates/skb-core/src/graph.rs:596-647 | in numbers: every entry decays by 0.95, 1/2, 1/3 and so on along some path to its entity, and up to 100 rows every path has an entry that decays no more |
| Expansion.CutTraceIsWellCut | crates/skb-core/src/graph.rs:638-647 | after the first cut no later hop changes what the frontier holds: it is full, and nothing missing would rank before anything kept |
| Expansion.Saturated | crates/skb-core/src/graph.rs:610-614 | stopping early misses nothing that later hops would have found |
| Expansion.BestDecays | crates/skb-core/src/graph.rs:649-660 | each entity keeps the highest of its decays |
| Expansion.Decays | crates/skb-core/src/graph.rs:558-676 | the result has at most 100 entities, each with 0.95 if it is mentioned and one over its distance plus one otherwise; one within reach is missing only if more than 100 rows were seen, and then all that are kept are nearer, or as near and earlier by name |
| ExpansionHits.Collect | crates/skb-core/src/graph.rs:689-731 | each chunk not seen before becomes one hit, scored by the best match of its first row |
| ExpansionHits.DecaysOf | crates/skb-core/src/graph.rs:662-680 | the entities asked for and their decays are those of the search |
| ExpansionHits.Expand | crates/skb-core/src/graph.rs:483-731 | every chunk found through the searches of the first three direct hits is a direct hit or an expanded one, each once, with score and decays of the first direct hit that finds it, in order of score |
| ExpansionHits.ExpandedIsWeaker | crates/skb-core/src/graph.rs:565-568 | every expanded hit is at most 0.95 of its origin, and below it if and only if the origin's score is positive |
| ExpansionHits.WeakerIff | crates/skb-core/src/graph.rs:710-714 | the hit of a row is strictly below its origin's score if and only if that score is positive |
| ExpansionTies.TiesIff | crates/skb-core/src/graph.rs:565-568 | an expanded hit can tie a direct one if and only if a direct score is that of one of the first three direct hits times 0.95, or over a number of hops from two up to the depth or 100 |
| ExpansionTies.TieExample | crates/skb-core/src/graph.rs:693-714 | direct hits with scores 1.0 and 0.95 and an expansion that ties the second |
| ExpansionTies.TieExampleTwoHops | crates/skb-core/src/graph.rs:606-614 | direct hits with scores 1.0 and 0.5, and an entity one edge away that ties the second |
| ExpansionTies.ScoreInNumbers | crates/skb-core/src/graph.rs:693-714 | an expanded hit scores 0.95 of its origin, or its origin over a number of hops from two up to the depth or 100 |
| Ranking.TopOrderIndependent | crates/skb-core/src/search.rs:265-276 | what is kept does not depend on the order the table is read in |
| Ranking.TopKeepsBest | crates/skb-core/src/graph.rs:643-647 | whatever is cut off ranks after everything that is kept |
| Sorting.KeyLeqIff | crates/skb-core/src/graph.rs:643-647 | names are compared as in a dictionary |
| Fusion.Merge | crates/skb-core/src/search.rs:226-263 | the two loops give each chunk of either leg the sum of its rank weights, and mark those the keyword leg found |
| Fusion.HybridMerge | crates/skb-core/src/search.rs:224-287 | the hits are the best top_k of the union under score and id, whatever the map's iteration order; highlights go to keyword hits only |
| Fusion.ScoreByRanks | crates/skb-core/src/search.rs:226-247 | a chunk scores 1/(k + rank + 1), ranks counted from 0, for each leg that found it; k = 0 is taken for 1 |
| Fusion.AgreementDecidesIff | crates/skb-core/src/search.rs:183-224 | every hit of both legs outranks every hit of one if and only if 3 * top_k < k + 2 |
| Fusion.AgreedHitsComeFirst | crates/skb-core/src/search.rs:265-276 | then no hit of one leg is returned before, or instead of, a hit of both |
| Lines.SplitAppend | crates/skb-server/src/llm.rs:222-256 | the lines of a text read in two parts are those of the first and those of its tail continued |
| LlmStreams.LlmStream.Read | crates/skb-server/src/llm.rs:242-257 | a piece is read only when memory holds no complete line and at most the cap, and an oversized segment ends the stream |
| LlmStreams.LlmStream.NextFragment | crates/skb-server/src/llm.rs:217-275 | returns the specified outcome and leaves the specified rest; the segment in memory stays within the cap |
| LlmStreams.LlmStream.TakeAll | crates/skb-server/src/llm.rs:215-275 | taking fragments to the end yields the fold of the lines up to the first [DONE] or error |
| LlmStreams.DataLine | crates/skb-server/src/llm.rs:278-297 | a data line, with or without a space after its colon and with any returns at its end, ends the stream, is an error, says nothing or delivers its text |
| LlmStreams.OtherLine | crates/skb-server/src/llm.rs:279-281 | a line that does not begin with "data:" says nothing |
| LlmStreams.EndLines | crates/skb-server/src/llm.rs:278-285 | the usual spellings of [DONE] end the stream; a comment, another field and a blank line say nothing |
| LlmStreams.EndsAtLine | crates/skb-server/src/llm.rs:217-241 | the transcript is the texts up to the first [DONE] or malformed line, and that line decides how it ends |
| LlmStreams.EndsWithBody | crates/skb-server/src/llm.rs:259-275 | without one it is all texts; an unterminated last line counts unless the connection breaks, which is an error |
| LlmStreams.CutsDoNotMatter | crates/skb-server/src/llm.rs:217-275 | when every line and the tail are within the cap, the transcript depends on the bytes alone |
| LlmStreams.CutsDoNotMatterIff | crates/skb-server/src/llm.rs:222-256 | all ways of cutting agree if and only if all lines fit or nothing is delivered before the first that does not |
| LlmStreams.CutsMatterAfter | crates/skb-server/src/llm.rs:222-256 | after any line that delivers a text or ends the stream, an oversized segment makes two ways of cutting differ |
| LlmStreams.CutsMatter | crates/skb-server/src/llm.rs:222-256 | such a stream |
| ClientEvents.Parser.HandleLine | web/packages/api-client/src/sse.ts:45-57 | a blank line dispatches, a comment changes nothing, event and data fields are recorded without one leading space |
| ClientEvents.Parser.Consume | web/packages/api-client/src/sse.ts:59-74 | the handler calls are those of the concatenated text's events, however it was cut |
| ClientEvents.EncodedEventsComeBack | web/packages/api-client/src/sse.ts:36-57 | any events, sent with comments in between and either line ending, come back as they were |
| ClientEvents.SentEventsComeBack | web/packages/api-client/src/sse.ts:36-57 | events without line ends in their names and returns in their data come back from their own encoding |
| ClientEvents.EndIsBlankLine | web/packages/api-client/src/sse.ts:73-74 | the end of the stream dispatches as a blank line would |
| ClientCalls.FieldLines | web/packages/api-client/src/sse.ts:50-56 | a field line adds its value with or without the space after its colon |
| ClientCalls.BareLines | web/packages/api-client/src/sse.ts:50-56 | a line without a colon is a field without a value; one that begins with a colon is a comment |
| ClientCalls.CallsExactly | web/packages/api-client/src/sse.ts:83-111 | exactly which events call which handler, and with what |
| ClientCalls.ErrorsExactly | web/packages/api-client/src/sse.ts:83-111 | every other event is a protocol error that says what was wrong |
| ClientCalls.SentCallsComeBack | crates/skb-server/src/handlers/chat.rs:190-209 | what the server sends is what the handlers are called with, call by call |
| ClientCalls.AnswerComesBack | crates/skb-server/src/handlers/chat.rs:83-119 | from the model to the browser: the tokens heard are the fragments of the model's stream, in order, between the citation and one final call |
| StandardEvents.AgreesIff | web/packages/api-client/src/sse.ts:36-74 | without lone carriage returns the client hears what the standard says if and only if every event is ended by a blank line and has data, and no name is empty |
| StandardEvents.NormalisedAgreesIff | web/packages/api-client/src/sse.ts:59-74 | on any text, with its line ends normalised, the same condition decides |
| StandardEvents.UnfinishedIsHeard | web/packages/api-client/src/sse.ts:73-74 | an event unfinished at the end is dispatched |
| StandardEvents.NameAloneIsHeard | web/packages/api-client/src/sse.ts:36-43 | a name without data is dispatched |
| StandardEvents.EmptyNameIsKept | web/packages/api-client/src/sse.ts:38 | an empty name does not become the default one |
| StandardEvents.LoneReturnJoins | web/packages/api-client/src/sse.ts:64-69 | a lone carriage return ends no line |
| CanonicalJson.CanonDecides | crates/skb-core/src/lib.rs:545-560 | two trees have the same canonical form if and only if they are equal up to key order at every depth |
| CanonicalJson.CanonIsOrdered | crates/skb-core/src/lib.rs:545-560 | a canonical form has its keys in order at every depth, and unique |
| CanonicalJson.CanonFixedIff | crates/skb-core/src/lib.rs:543-560 | canonicalising changes nothing if and only if all keys are in order, so doing it twice is doing it once |
| CanonicalJson.FingerprintInputIff | crates/skb-core/src/lib.rs:504-528 | the hashed tree is the same if and only if the source is and the configurations are equal up to key order |
| CanonicalJson.AlgorithmIs | crates/skb-core/src/lib.rs:508-512 | the algorithm is the text of the type in the model of the configuration, or "unknown" without one |
| CanonicalJson.DescriptionMembers | crates/skb-core/src/lib.rs:516-522 | what is hashed names the layout, the library, the source, the algorithm and the configuration |

## Left out

- Autosave.AutosaveHook.OnRoute: navigation and the query cache are events and outcomes here; seeding the cache with the saved text is not modelled.
- BlogStore.Server.UpdateDocument: the contract is for one request at a time; interleavings are `BlogRace`, which models PUTs on one post only.
- BlogStore.Server.DeleteDocument: deletions racing with PUTs or other deletions are not modelled.
- Sections.AtMostOneParent: stale edges of a child that has become a root are kept by the program, so exactness across documents is not claimed.
- ExpansionHits.Expand: the entities a chunk row carries, and the limit of 200 rows, are up to the chunk query, an arbitrary function.
- StandardEvents.AgreesIff: which texts with lone carriage returns happen to read the same both ways is not characterised.
- Related.FanoutOf: an entity's successors are taken to come back in one row per edge.
- Database.Db.RebuildDocumentRetrying: the delays between attempts are not modelled.
- Fusion.HybridMerge: chunk ids are taken to be distinct within one leg, as a query over chunk records returns them.
- Headings.HeadingStarts: offsets count characters, not bytes.
- Vectors stored while the index has another dimension than the field, as `Limits.SchemaRedefinesIndex` leaves it until the next reindex: only the field's check of their length is modelled.
- Storage engine behaviour: each transaction, meta write and run of the schema script is one atomic step; vector index and full-text search are not modelled.
- Requests inside one process running beside a reindex: one process holds the store and does one thing at a time.
- Section edges and entity records as part of the store: sections have their own edge table, and a transaction on documents models only whether their entities have record ids and their sections can be linked.
- Document fields other than title, content and hash; progress callbacks; batching of embeddings.
- Tokenizer, embedder, entity extractor, UTF-8 decoding and JSON parsing: arbitrary functions.
- Floating-point rounding of scores: reals instead.
- Abort signals and text decoding of the client's stream; idle timeouts of the language model's.
- Graph queries, pagination cursors, search filters, statistics and diagnostics.
- Sources of uploads (files, URLs, PDF, base64), authentication and configuration.
- The rest of the user interface.
