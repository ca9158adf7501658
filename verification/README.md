# Ventstream: a verified model

Ventstream reads change events from databases, joins each primary row with its
related rows into one document, and keeps a search index, or a realtime
subscriber, up to date. This project models the parts of it that hold state and
must survive crashes and interleavings, and proves what they promise.

- **The join engine.** `JoinModel` holds the values: the engine's four maps, the
  row operations an event turns into, plain table replay, and the documents a
  state stands for. `Incremental` proves that the emissions always leave the sink
  at the from-scratch join, and `DocIds` says so of an index keyed by document id.
  `Payloads` says what an event means in terms of its payload, `Cells` what every
  column of every row holds after a log, and `Documents` what every member of a
  document holds, so that the join is pinned down to the values events carry.
  `RowState`, `Lookups`, `Compose`, `Carries` and `Engine` are the state object and
  the engine object, with their loops, paging, batching and routing. Every engine
  method is proved against the row operations of `JoinModel`, and
  `Engine.JoinEngine.Run` ties a list of events to the join. `Backfill` says what a
  cache filled from the source still promises, in every order of operations, lookups
  and batches while the source changes; `InStep` that with a source in step with the
  events every document sent is the join; `Leftovers` when an index entry is left
  behind and what it does; and `Batches` when resolving a chunk at once equals
  composing its primaries in turn. `Events` is the decoding of events, `Keys`, `Texts`,
  `Json`, `Config`, `Index` and `Order` the pieces below it. `SharedTables` and `Limits`
  show what goes wrong where a table plays several roles, and `Witnesses` has one
  concrete input for each way in which the engine falls short of the join.
- **Durability.** `Pipeline` is the protocol between engine, sink and source
  (handle, barrier, confirm, flush, publish, checkpoint, crash) as steps.
  `Replays` and `Recovery` prove that replay after any number of crashes ends
  where an uninterrupted run would be, and `Progress` that it can always get there.
- **The fleet agent.** `Fleet` has the durable state, histories of writes, effects
  and reports, and what holds of every history cut off anywhere and resumed.
  `FleetAgent` is the agent and its state file as objects; what the adapter answers
  and which writes reach the disk are inputs.
- **Shared resources.** `Memory` is the byte budget, `Reaper` the orphan reaper
  against session set-up, `Acks` the broker session and the pump with cumulative
  acknowledgements; what the broker sends and answers and when operations attach are
  inputs.

Files and modules have the same names. JSON objects are maps, so two documents are
equal when they have the same members. Hash sets and hash maps are enumerated in
an arbitrary order, so a document is a view written out with its foreign rows in
some order (`JoinModel.Renders`).

Some results came out otherwise than the code or its comments suggest. Each is
stated for all inputs, as the code behaves, with the exact condition:

- Several related entries on one table, in one definition or in several. An update is
  written through the first entry, so every other entry finds no old key and keeps the
  row in its old bucket. What the engine composes and sends last for a document is its
  join if and only if the row has not moved away from the document's own key of an
  entry that is not the first; being reached by the first entry does not help
  (`SharedTables.SharedTableUpdateGoesStaleIff`). After a delete what is composed is
  right, but a document that embedded the row is sent again only if some entry of its
  definition goes by the document's own key, the first by the stored row and the others
  by the event (`SharedTables.SharedTableDeleteGoesStaleIff`). The delete leaves the
  row's entry behind in every other entry whose key the event does not carry
  (`SharedTables.DeleteLeavesEntryIff`), and inserting the row again makes it show
  (`SharedTables.ReinsertedComposesIff`). Inputs: `Witnesses.UpdateKeepsOldAddress`,
  `Witnesses.DeleteKeepsAddress`.
- Two definitions on one primary table. Storing the row for the second removes the
  links of the first, so later changes reach the document only through entries of
  the last definition, and there exactly as they should
  (`Limits.SharedPrimaryReachesIff`). Input: `Witnesses.FirstDefinitionUnreached`.
- An event that ends in a permanent error leaves every state and the output
  untouched exactly when the role handled first rejects it or its table or kind
  cannot be read (`Carries.PoisonLeavesNoTraceIff`). Where the table has one role this
  holds of the engine object in every backfill mode (`Engine.JoinEngine.HandleInner`).
  Input: `Limits.RejectedAfterStoring`.
- Recomposing a chunk in batches and composing its primaries in turn may give the
  same documents exactly when no one-to-one lookup is disturbed by the fetches
  before it. Whether it is can be read off the chunk's keys in order, the cache and
  the source's rows (`Batches.SameDocumentsIff`, `Batches.Undisturbed`).
  `Lookups.BatchKeepsCachedRow` and `Lookups.SecondLookupMayDiffer` are two ways it
  happens. Input: `Witnesses.BatchEmbedsOldAddress`.
- The key index of a relation stays exact unless a lookup or a batch fetches a row that
  is stored under another key, or for two keys, or an insert lands on a row stored under
  another key (`Leftovers.MoveExactIff`). The entry left behind makes the old key find a
  row that does not join on it (`Leftovers.LeftoversAreEmbedded`), and makes a
  one-to-one relation answer from the cache, the source not asked, although no cached
  row joins (`Leftovers.LeftoverHidesSourceIff`). Input: `Witnesses.FetchLeavesOldTag`.

## Model

| member | source | states |
|---|---|---|
| Incremental.SinkAlwaysJoin | crates/ventstream-joins/src/engine.rs:459-939 | after every log of inserts, partial updates, re-keying updates, key-only deletes and truncates on both sides, the sink built from the emitted upserts and tombstones is the full join of the replayed tables |
| Documents.SinkHoldsLastWritten | crates/ventstream-joins/src/engine.rs:1076-1100 | after every log the sink has a document for exactly the primaries written and not cleared since, and each column no relation embeds over holds the last value written to it since the row last began |
| Documents.SinkHolds | crates/ventstream-joins/src/engine.rs:1394-1458 | under a sink that is the join, every entry holds its row's own columns and, for each relation, the rows that join: each once, cut to the selected columns, ascending by the sort column with ties in the order found where one is given, else in the order found; a one-to-one relation the first, or the configured empty value |
| Documents.ShapeEmbeds | crates/ventstream-joins/src/engine.rs:1394-1426 | what is embedded for the rows found is exactly that, for every cardinality, selection, sort column and policy on missing rows |
| Cells.TablesHoldLastWritten | crates/ventstream-joins/src/engine.rs:632-655 | after every log a row is stored exactly when it was written and not cleared since, and each of its columns holds the last value written since the row last began, absent columns of an update keeping theirs |
| Cells.ReplayOverlays | crates/ventstream-joins/src/engine.rs:829-862 | an update over a stored row leaves exactly the columns of the two, the event's values first; an insert or a first write leaves the event's row; what an operation deletes or truncates is gone; every other row stays |
| Payloads.PlanSays | crates/ventstream-joins/src/engine.rs:459-532 | an event's plan is exactly the changes its payload fields and headers say, one per role in turn, up to the first role for which they say none; the truncation of a primary table comes first, and an event of a table without a role passes through |
| Payloads.PrimaryPlanned | crates/ventstream-joins/src/engine.rs:1364-1392 | on a primary table with one role: an insert writes the payload, an update its `new` part or else the payload itself over the stored columns, a delete removes the row its `old` part or else the document id names, and fails without either |
| Payloads.RelatedPlanned | crates/ventstream-joins/src/engine.rs:1364-1392 | the same on a related table, where a delete also carries the join key of the `old` part |
| Payloads.DecodeSays | crates/ventstream-joins/src/engine.rs:587-625 | one role decodes to an operation if and only if the payload says that operation |
| Payloads.IdNames | crates/ventstream-joins/src/engine.rs:1380-1390 | when an event carries no row, the document id of a table and non-null scalars, as many as the key has columns, names the key of those scalars |
| Payloads.TableIsRead | crates/ventstream-joins/src/engine.rs:1318-1335 | the table is namespace and relation from the headers, else the second and third of at least four dotted parts of the subject |
| Payloads.KindIsRead | crates/ventstream-joins/src/engine.rs:1337-1348 | the kind of change is the last dotted part of the subject, and nothing else is one |
| Payloads.EventsLand | crates/ventstream-joins/src/engine.rs:459-532 | an event of a table with one role that ends well has left stored what its payload says: the named row with the payload's columns over its own, or gone, and every other row as it was but for foreign rows the source supplied |
| DocIds.IndexAlwaysJoin | crates/ventstream-core/src/doc_id.rs:31-56 | after every log whose primaries have non-null scalar keys, an index keyed by document id holds under each id exactly that primary's join, and nothing else |
| Incremental.StepKeepsJoin | crates/ventstream-joins/src/engine.rs:600-939 | one operation's emissions take a sink that is the join of the old tables to the join of the new tables, touched and untouched documents alike |
| Incremental.StateInvariants | crates/ventstream-joins/src/engine.rs:656-757 | after every log the two indexes are exactly the inverse maps of the stored keys, every stored primary is an object, and the stored rows are the replayed tables |
| Incremental.ApplyWired | crates/ventstream-joins/src/engine.rs:715-757 | every operation, in any order, keeps `primary_reverse` the exact inverse of the stored primaries' keys |
| Incremental.ApplyForeignExact | crates/ventstream-joins/src/engine.rs:829-912 | every operation keeps `foreign_by_fk` the exact inverse of the stored foreign rows' join keys, re-keying and key-only deletes included |
| Incremental.ComposedIsJoin | crates/ventstream-joins/src/engine.rs:1076-1157 | what the engine composes through its indexes for a stored primary is the table join of that row |
| Incremental.UntouchedView | crates/ventstream-joins/src/engine.rs:914-939 | a document the engine does not re-emit has not changed |
| Engine.JoinEngine.Run | crates/ventstream-joins/src/engine.rs:252-310 | in every backfill mode, with a source that may differ at each event: events are handled in order, permanent failures are set aside only when recorded and otherwise end the run, unrelated events pass through, the stored primaries are the rows the events describe, the sink holds exactly their documents, and with honest sources every cached row stays found under its own key however the run ends; while the sources answer, the run succeeds exactly when every failing event is recorded; from an empty start without backfill the emissions leave a sink that is the join of the tables the events describe |
| Engine.JoinEngine.HandleInner | crates/ventstream-joins/src/engine.rs:459-532 | in every backfill mode an event of a table with one role that ends well has left stored what its payload says; while the source answers it ends exactly as planned; the indexes stay sound, with an honest source every cached row stays found under its own key, a permanent error is the one planned, and on a table with one role it leaves state and output untouched; only an unreachable source can stop the plan early, and then a prefix of it was carried out; without backfill exactly the planned operations are carried out and announced |
| Engine.JoinEngine.HandleChange | crates/ventstream-joins/src/engine.rs:503-531 | every role of the table is served in order, the truncation of a primary first, stopping at the first role that rejects |
| Engine.JoinEngine.HandlePrimary | crates/ventstream-joins/src/engine.rs:568-711 | the new state is the operation's, its cache holding more only if the source supplied it, and one emission for that primary carries a document made of rows cached or supplied; without backfill it is the document of the new state; only the source can fail a decoded event, and a rejected event changes nothing |
| Engine.JoinEngine.StorePrimaryRow | crates/ventstream-joins/src/engine.rs:632-655 | the stored row has exactly the columns of the row before and the event's, the event's values first; an insert or a first write stores the event's row; its keys are linked and the old ones unlinked |
| Engine.JoinEngine.HandleRelated | crates/ventstream-joins/src/engine.rs:761-939 | in every backfill mode each primary under the old or the new key, found through the stored row when the event has only its own key, is re-emitted exactly once, and a deleted child is gone unless the source supplied it again; without backfill each carries the document of the new state; a rejected event changes nothing |
| Engine.JoinEngine.StoreForeignRow | crates/ventstream-joins/src/engine.rs:829-891 | the same for a related row, and it is found under its new join key and no longer under the one an update moved it from |
| Engine.JoinEngine.HandleRelatedTruncate | crates/ventstream-joins/src/engine.rs:778-792 | the related table is forgotten and every primary linked through it is recomposed exactly once |
| Engine.JoinEngine.HandlePrimaryTruncate | crates/ventstream-joins/src/engine.rs:536-565 | the paging ends, each stored primary of the table is tombstoned once per definition and nothing else is sent, and no row or link of the table remains |
| Engine.JoinEngine.ReEmitPrimariesForKeys | crates/ventstream-joins/src/engine.rs:942-971 | for any fan-out size the walk ends and every stored primary in the union of the one or two buckets is sent exactly once; the count is the size of the union |
| Engine.JoinEngine.ReEmitPrimariesForRelation | crates/ventstream-joins/src/engine.rs:974-999 | the same for every primary linked under any key of a relation |
| Engine.JoinEngine.ReEmitPrimaryChunk | crates/ventstream-joins/src/engine.rs:1005-1072 | one upsert per stored primary of the chunk, in order, with documents that composing in batches may give (`Batches.BatchDocs`), each holding its row's columns and, per relation, the rows found, projected and in the relation's order; it fails, with nothing sent, only when a source is unreachable |
| Engine.JoinEngine.ComposePrimary | crates/ventstream-joins/src/engine.rs:1076-1100 | the document embeds, relation by relation, what each lookup may answer in the state the lookups before it left (`Batches.RowDoc`), projected and in the relation's order, beside the row's own columns; an object row fails to compose only when the source is unreachable |
| Engine.JoinEngine.LookupRelated | crates/ventstream-joins/src/engine.rs:1102-1208 | the answer is the cached rows in some order or what the source says; it fails exactly when the source is consulted and unreachable; what was fetched is cached |
| Engine.JoinEngine.LookupRelatedBatch | crates/ventstream-joins/src/engine.rs:1210-1303 | every key gets an answer a single lookup could have given at the start of the batch; it fails, with nothing cached, exactly when some unresolved key cannot be fetched |
| Engine.JoinEngine.FetchManyBatch | crates/ventstream-joins/src/fetcher.rs:116-129 | the default batch gives each key the rows of its own query and fails exactly when one query fails |
| Engine.JoinEngine.UpdatePrimaryIndexes | crates/ventstream-joins/src/engine.rs:716-757 | the links of the row stored before are undone, in whatever order its keys come, and the new non-null keys are linked |
| Compose.DocRenders | crates/ventstream-joins/src/engine.rs:1076-1100 | without backfill a composed document is the cached view of its row |
| Compose.WalkSteps | crates/ventstream-joins/src/engine.rs:953-970 | sending one page extends what has been sent to exactly the primaries reached, and strictly fewer remain |
| RowState.JoinState.PrimariesForKeysChunk | crates/ventstream-joins/src/state.rs:491-545 | merging two ordered buckets yields the next page of their union after the cursor: ordered, bounded, each once, none skipped |
| RowState.JoinState.PrimariesForRelationChunk | crates/ventstream-joins/src/state.rs:551-581 | the bounded set over all buckets yields the next page of their union although each bucket is read only up to the bound |
| RowState.JoinState.TakePrimaryTablePage | crates/ventstream-joins/src/state.rs:653-700 | up to the bound, distinct rows of the table are removed with every link to them; none are taken only if none are left |
| RowState.JoinState.PurgeRelatedTable | crates/ventstream-joins/src/state.rs:708-740 | the table's foreign rows and the relation's key index are gone, reverse links and everything else stay |
| RowState.PageAdvances | crates/ventstream-joins/src/state.rs:755-762 | moving the cursor to a page's last row reaches exactly that page's rows |
| Batches.SameDocumentsIff | crates/ventstream-joins/src/engine.rs:1005-1303 | recomposing a chunk in batches and composing its primaries one after the other may give exactly the same documents if and only if the source fails a lookup of the chunk or no lookup is disturbed by the fetches before it |
| Batches.UndisturbedSameDocuments | crates/ventstream-joins/src/engine.rs:1005-1303 | with a failing source neither way gives documents; undisturbed, both may give the same, also when two relations embed under one name |
| Batches.LookupSameIff | crates/ventstream-joins/src/engine.rs:1102-1208 | the lookup at any position in turn may embed exactly what it may embed at the start, if and only if it is undisturbed; a lookup the source fails asks the source in both cases or in neither |
| Batches.OneByOneIsBatch | crates/ventstream-joins/src/engine.rs:1184-1303 | for a one-to-one relation, looking keys up one after the other leaves the very state one batch of them leaves |
| Batches.AgreeingSourceUndisturbed | crates/ventstream-joins/src/engine.rs:1235-1255 | a source with at most one row per key, never another version of a row held or fetched for another key, disturbs nothing |
| Lookups.FetchDisturbsIff | crates/ventstream-joins/src/engine.rs:1184-1192 | fetching one key changes what the cache holds for another exactly when it brings a different version of a row in the other's bucket |
| Lookups.BatchKeepsCachedRow | crates/ventstream-joins/src/engine.rs:1235-1255 | then a batch embeds the cached row where composing in turn embeds the fetched one |
| Lookups.SecondLookupMayDiffer | crates/ventstream-joins/src/engine.rs:1184-1196 | a one-to-one key with two rows: a batch always answers the first row first, a second lookup in turn may answer the other |
| Backfill.DeleteByKeyAloneReachesParents | crates/ventstream-joins/src/engine.rs:895-912 | after any interleaving of row operations, lookups and batches, the source changing in between, deleting a cached child with only its own key on the event: exactly the primaries holding its join key are to be re-emitted, the child was found under that key and is found under none afterwards, and an entry stays in another bucket exactly when it was there |
| Backfill.AlwaysTended | crates/ventstream-joins/src/engine.rs:1184-1192 | any such interleaving keeps the primary index an exact inverse and every cached row an object indexed under its own join key |
| Leftovers.MoveExactIff | crates/ventstream-joins/src/engine.rs:838-891 | from exact key indexes, an operation, a lookup or a batch keeps them exact if and only if it is not an insert over a row stored under another key and fetches no row stored under another key or for two keys |
| Leftovers.AnswersExactIff | crates/ventstream-joins/src/engine.rs:1184-1192 | from an exact key index, caching the answers for some keys keeps it exact if and only if every fetched row is not stored or stored under the key it was fetched for, and fetched for no other |
| Leftovers.ExactUntilLeft | crates/ventstream-joins/src/engine.rs:1184-1192 | the key indexes are exact after any interleaving in which no move left an entry behind |
| Leftovers.LeftoversAreEmbedded | crates/ventstream-joins/src/engine.rs:1126-1147 | what the cache finds under a key is what joins on it and the still stored rows of entries left there; it is the join exactly when there are none |
| Leftovers.LeftoverHidesSourceIff | crates/ventstream-joins/src/engine.rs:1126-1152 | a key on which no cached row joins is answered without the source exactly when the relation is one-to-one and an entry was left there; the answer is the rows left behind |
| InStep.AnsweredIsJoin | crates/ventstream-joins/src/engine.rs:1076-1208 | with backfill, a cache and a source in step with the tables make every document composed the join of its row |
| InStep.UpsertSendsJoin | crates/ventstream-joins/src/engine.rs:568-711 | an upsert of a primary, with a source in step with the tables it leaves, sends their join and leaves the cache in step |
| InStep.RelatedSendsJoin | crates/ventstream-joins/src/engine.rs:761-939 | so does a change of a related row, when an insert names an absent row and an update of an uncached row carries the cached columns |
| InStep.PassesInStep | crates/ventstream-joins/src/engine.rs:252-310 | a run whose source is in step with the events at each operation keeps the cache in step throughout |
| InStep.EmptyInStep | crates/ventstream-joins/src/engine.rs:252-310 | the empty state is in step with empty tables, where such a run begins |
| Lookups.FetchedRowKeepsKeys | crates/ventstream-joins/src/engine.rs:1160-1192 | a row fetched for a key still tells that key whatever `select` says, and its own key when `select` is empty or keeps the related key |
| Lookups.SelectAloneLosesKey | crates/ventstream-joins/src/engine.rs:1160-1173 | had the fetch asked for `select` alone, a join column outside it would lose the key |
| Lookups.AddFkColumns | crates/ventstream-joins/src/engine.rs:1428-1439 | the loop computes the columns described by `WithColumnsAre`; an empty `select` stays empty |
| Lookups.WithColumnsAre | crates/ventstream-joins/src/engine.rs:1428-1439 | the fetched columns start with `select`, are exactly `select` and the join columns, and repeat none |
| Events.PlanWithinJoins | crates/ventstream-joins/src/engine.rs:503-531 | every operation an event stands for belongs to the configured joins, a primary upsert carries an object, and every planned failure is permanent |
| Carries.PoisonLeavesNoTraceIff | crates/ventstream-joins/src/engine.rs:587-625 | the operations of a failing event leave every state as it was and send nothing exactly when no table or kind could be read or the role handled first rejects it; always so for a table with one role |
| Events.PlanRolesFailsIff | crates/ventstream-joins/src/engine.rs:516-531 | an event fails exactly when one of its roles cannot take it, and the roles before that one have been carried out |
| Events.TombstoneIsDelete | crates/ventstream-joins/src/engine.rs:1485-1489 | a tombstone's subject is classified as a delete whatever triggered it, and keeps the segments before the change kind |
| SharedTables.SharedTableDeleteGoesStaleIff | crates/ventstream-joins/src/engine.rs:895-912 | any number of related entries on one table, in any definitions: after a delete what is composed for a document is its join, and what was sent last is its join if and only if it did not embed the row or some entry of its definition goes by its own key |
| SharedTables.DeleteLeavesEntryIff | crates/ventstream-joins/src/engine.rs:897-908 | the delete leaves an entry behind under the row's key in exactly the entries after the first whose key the event does not carry |
| SharedTables.ReinsertedComposesIff | crates/ventstream-joins/src/engine.rs:838-891 | when the row is inserted again, what is composed for a document is its join if and only if no such entry was left under the document's own key, or the row is back under it |
| SharedTables.SharedTableUpdateGoesStaleIff | crates/ventstream-joins/src/engine.rs:838-891 | after an update both what is composed for a document and what was sent last are its join if and only if the row has not moved away from the document's own key of an entry after the first |
| SharedTables.LinkedFanOut | crates/ventstream-joins/src/engine.rs:942-971 | an exact reverse index for the definition alone makes a related operation reach exactly the primaries its tables touch, whatever roles the table plays |
| Limits.SharedPrimaryReachesIff | crates/ventstream-joins/src/engine.rs:738-756 | two definitions on one primary table: after both stored the row, a related change reaches the primary exactly through entries of the last definition with the affected key, and for those exactly when the tables say so |
| Limits.RejectedAfterStoring | crates/ventstream-joins/src/engine.rs:829-870 | a concrete event that a related role stores and the primary role after it rejects |
| Witnesses.UpdateKeepsOldAddress | crates/ventstream-joins/src/engine.rs:838-891 | a concrete order whose shipping entry is reached and which is sent again still embedding the address that left its billing entry |
| Witnesses.DeleteKeepsAddress | crates/ventstream-joins/src/engine.rs:897-912 | a concrete order that keeps a deleted address, and the entry left behind |
| Witnesses.FirstDefinitionUnreached | crates/ventstream-joins/src/engine.rs:738-756 | a concrete order stored for two definitions that an address of the first one's entry does not reach |
| Witnesses.BatchEmbedsOldAddress | crates/ventstream-joins/src/engine.rs:1210-1303 | two concrete orders that cannot give the same documents in a batch and in turn |
| Witnesses.FetchLeavesOldTag | crates/ventstream-joins/src/engine.rs:1184-1192 | a concrete fetch that leaves an address found under a tag on which nothing joins |
| Config.ValidateRelatedIdsUnique | crates/ventstream-joins/src/config.rs:271-300 | a specification is accepted exactly when no related id is declared twice, and a reported id is declared twice |
| Index.Extensional | crates/ventstream-joins/src/state.rs:447-476 | because empty buckets are dropped, equal buckets mean equal indexes |
| Json.CompareReverses | crates/ventstream-joins/src/engine.rs:1460-1475 | swapping the arguments reverses the comparison, and any two values are comparable |
| Json.CompareTransitive | crates/ventstream-joins/src/engine.rs:1460-1475 | the comparison is transitive on all JSON values, mixed kinds included |
| Json.CompareWithinKind | crates/ventstream-joins/src/engine.rs:1460-1475 | numbers compare by value, strings as text, false comes before true, and null before everything |
| Order.StrLtIff | crates/ventstream-joins/src/engine.rs:1460-1475 | text compares less exactly when it is a proper prefix or smaller at the first place where the two differ |
| Json.SortRowsStable | crates/ventstream-joins/src/engine.rs:1402-1415 | sorting on a column gives a sorted permutation that keeps ties in order |
| Keys.ExtractKey | crates/ventstream-joins/src/key.rs:107-119 | the column loop computes the key, missing columns as null, and only an object has one |
| Keys.KeysEqualIff | crates/ventstream-joins/src/key.rs:31-104 | two keys of scalars and nulls are equal exactly when they have as many components and, place by place, both are null or both are scalars that read the same, so the number 1 and the text "1" agree and null agrees with null alone |
| Texts.AnyKeysEqualIff | crates/ventstream-joins/src/key.rs:31-104 | the same for components of any kind: arrays and objects agree exactly when they are the same value, numbers in them going by how they are written |
| Texts.TextsEqualIff | crates/ventstream-joins/src/key.rs:31-104 | two JSON values have the same compact text exactly when they are the same value, numbers going by how they are written |
| Keys.KeyReadsBack | crates/ventstream-joins/src/key.rs:31-104 | a key's text reads back as its components, each scalar as its text and null as null |
| Keys.DocIdIsKeyTextIff | crates/ventstream-joins/src/engine.rs:1570-1578 | the document id is the table, a colon and the key's own bytes exactly when no component is null |
| Keys.DocIdRoundTripIff | crates/ventstream-joins/src/engine.rs:1380-1390 | the key read back from a document id is the key it was made from exactly when no component is null |
| Keys.DocIdInjective | crates/ventstream-core/src/doc_id.rs:31-56 | two tables and lists of non-null scalars have the same document id exactly when the tables are the same and the components, place by place, read the same |
| Keys.DocIdSpellsKey | crates/ventstream-core/src/doc_id.rs:31-56 | a document id is the table, a colon and an array that reads back as what the components read as, a null as "null" |
| Keys.DocIdCountIff | crates/ventstream-joins/src/engine.rs:1380-1390 | reading a document id of non-null scalars gives a key exactly when the number of columns expected is the number of components |
| Keys.NullComponentCollides | crates/ventstream-core/src/doc_id.rs:31-47 | a null component and the text "null" make different keys with one document id |
| Pipeline.WatermarkOrdering | crates/ventstream-joins/src/engine.rs:215-421 | in every reachable state source progress is at least every watermark of a handled prefix that the flushed state covers and is one of them, or 0; nothing still on its way to the sink comes from that prefix, and the flushed state is the memory state at its end |
| Pipeline.ProgressNeverDecreases | crates/ventstream-joins/src/engine.rs:415-419 | in every run the source's durable watermark never decreases, whatever crashes, and source progress never decreases within a process |
| Pipeline.FlushedIsDelivered | crates/ventstream-joins/src/engine.rs:215-421 | with increasing watermarks, through any crashes: the prefix that flushes have covered never shrinks, a restart resumes within it, and the sink has taken all that some handling of each of its operations put out |
| Replays.ReplayTwice | crates/ventstream-joins/src/engine.rs:600-711 | replaying any stretch of a log a second time changes no row, from any tables |
| Recovery.ReplayConverges | crates/ventstream-joins/src/engine.rs:197-437 | any number of crashes at any points: once replay reaches the furthest event ever handled, rows and indexes are those of a run that never crashed, and with the queue drained the sink is the join |
| Progress.CanAlwaysComplete | crates/ventstream-joins/src/engine.rs:197-437 | from every state of every run, whatever crashed before, steps without a crash lead to where the whole input is handled and flushed, rows and indexes are those of a run that never crashed, the sink is the join of the whole input, and the source's watermark covers every event that carries one |
| Progress.SomeAnnouncement | crates/ventstream-joins/src/engine.rs:1076-1157 | whatever an operation touches, there is a way to announce it: every stored object row composes |
| Fleet.NoRepeatedEffect | crates/ventstream-fleet-client/src/runtime.rs:143-206 | once a terminal receipt of an operation is on disk, nothing later, in this process or another, performs it again |
| Fleet.OrderlyWritesAhead | crates/ventstream-fleet-client/src/runtime.rs:208-311 | in every orderly history the last write before each effect holds that operation as running, and each report is of a receipt in the last write before it |
| Fleet.UnfinishedNeverLost | crates/ventstream-fleet-client/src/runtime.rs:427-440 | across restarts an unfinished receipt on disk is later still there, no further back, or a terminal one of the same operation was on disk in between |
| Fleet.RunOnlyMovesForward | crates/ventstream-fleet-client/src/store.rs:122-165 | across restarts every state written is sound, the last sequence and the desired revision never go back, and receipts only move forward |
| Fleet.AppliedWasDesired | crates/ventstream-fleet-client/src/runtime.rs:381-402 | a configuration on disk had, when it was first recorded, the revision the desired snapshot selected |
| Fleet.LivesAreOrderly | crates/ventstream-fleet-client/src/runtime.rs:58-81 | processes cut off anywhere, each resuming from the disk the one before left, make one orderly history |
| Fleet.SettledForever | crates/ventstream-fleet-client/src/runtime.rs:427-440 | a finished operation stays finished through redelivery, new revisions, eviction and restarts |
| Fleet.ValidateState | crates/ventstream-fleet-client/src/store.rs:122-165 | the loop accepts exactly the states of this schema and scope whose receipts are within the last sequence and have distinct ids |
| Fleet.MatchesReceiptIff | crates/ventstream-fleet-client/src/runtime.rs:404-426 | a receipt matches an operation exactly when it is that operation's receipt, field by field, but for its id and how far it has got |
| Fleet.MatchesDesiredIff | crates/ventstream-fleet-client/src/runtime.rs:381-402 | an operation is still wanted exactly when the current snapshot has its revision and run state and, where it carries a configuration, selects that one |
| FleetAgent.StateStore.Persist | crates/ventstream-fleet-client/src/store.rs:47-75 | an invalid state is refused and nothing written; a valid one is written exactly when the write lands, and reported so exactly when it lands and is seen to |
| FleetAgent.EngineAgent.Load | crates/ventstream-fleet-client/src/runtime.rs:58-81 | an agent starts exactly when the disk holds nothing or a loadable state, and the gate and the write go through; it holds what the disk holds, with only the observed state set to what the gate answered |
| FleetAgent.EngineAgent.AcceptDesiredState | crates/ventstream-fleet-client/src/runtime.rs:99-127 | refused exactly for another scope, no revision or changed content; otherwise duplicate, stale, or written with a higher revision; it breaks only when a write does |
| FleetAgent.EngineAgent.ExecuteConvergence | crates/ventstream-fleet-client/src/runtime.rs:143-206 | an operation is refused, changing nothing, exactly when it is out of scope or order, conflicts with its receipt or the desired state, or unfinished receipts leave no room; one already finished is answered from its receipt; any other is carried out and its receipt says Succeeded exactly when the adapter did what was asked; it breaks off only when a write does, at most one effect happens, and every effect and report in the history follows the write it depends on |
| FleetAgent.EngineAgent.ApplyOperation | crates/ventstream-fleet-client/src/runtime.rs:208-311 | the operation is written as running, then performed, then written and reported as finished, in that order; the receipt becomes Succeeded exactly when the adapter did what the kind asks for: reached the very run state, applied the configuration carried, reconciled, or carried out a confirmed rebootstrap; else Failed; what is observed then is the run state reached, Error where the adapter was asked in vain, and unchanged otherwise; a configuration counts as applied only on success; nothing else changes |
| FleetAgent.MakeReceiptCapacity | crates/ventstream-fleet-client/src/runtime.rs:427-440 | exactly as many finished receipts as needed are evicted, the oldest first, order and ids are kept, there is room for one more; it fails exactly when the unfinished receipts alone fill the bound |
| FleetAgent.AcknowledgeEvolves | crates/ventstream-fleet-client/src/runtime.rs:174-199 | accepting a new operation drops no unfinished receipt and reuses no sequence |
| FleetAgent.SetReceiptEvolves | crates/ventstream-fleet-client/src/runtime.rs:313-329 | setting one receipt forward keeps the state sound and every other receipt as it was |
| Memory.HeadroomIff | crates/ventstream-core/src/memory.rs:82-95 | for every hard limit and event size, output admission keeps room for the largest event beyond a full input share at every pressure exactly when the hard limit is at least 4 and, where percentages saturate, 70 percent of it and the largest event fit the saturated share |
| Memory.AdmittedIff | crates/ventstream-core/src/memory.rs:152-267 | a publish nobody disturbs is admitted exactly when its size, at least 1, is within the event limit and the total within the largest event or the rounded-up percentage of the hard limit; then the counter grows by exactly that size and the event holds it; otherwise the counter stays |
| Memory.LimitIff | crates/ventstream-core/src/memory.rs:269-287 | a total is within an admission's limit exactly when it is within the hard limit and within the largest event or the percentage rounded up |
| Memory.FullBudgetIff | crates/ventstream-core/src/memory.rs:50-52 | without pressure direct events may use the whole budget exactly when the percentage does not saturate |
| Memory.LimitsOrdered | crates/ventstream-core/src/memory.rs:269-287 | at every pressure transform input gets no more than direct events and these no more than transform output |
| Memory.AlwaysConserved | crates/ventstream-core/src/memory.rs:230-305 | under every interleaving of reserve, retry, pressure change, clone and drop the counter is the sum of the reservations not yet given back and stays within the hard limit |
| Memory.NeverUnderflows | crates/ventstream-core/src/memory.rs:298-305 | no release takes the counter below zero |
| Memory.ChargedAtMostOnce | crates/ventstream-core/src/bus.rs:222-248 | however many buses an event crosses it is charged at most once, and not at all if it carries a reservation |
| Memory.AllGivenBack | crates/ventstream-core/src/memory.rs:290-305 | in every run an event's charge is its own size, whoever shares it, and once every event is gone and every release done the counter is 0 |
| Acks.JetStreamSession.Next | crates/ventstream-jetstream/src/lib.rs:630-709 | the next delivery is the first the broker makes; it is given up exactly when the consumer is deleted before it or more than 6 failures, or a late one, come before it, and delivering starts the count anew; only the delivery accepted before may be acknowledged on the way, and while the broker takes acknowledgements it is, once, at the first interruption, end or quiet spell; a second call before acceptance is refused |
| Acks.JetStreamSession.Accepted | crates/ventstream-jetstream/src/lib.rs:711-735 | acceptance succeeds exactly for the pending delivery's cursor and is acknowledged at once after 64 of them |
| Acks.JetStreamSession.FlushPending | crates/ventstream-jetstream/src/lib.rs:574-596 | the accepted delivery is acknowledged, cleared exactly when the broker takes it, and otherwise kept for a retry |
| Acks.Pump.Run | crates/ventstream-graphql/src/conn_source.rs:259-428 | in the trace of the run, at each acknowledgement every event above the floor up to it has earlier been broadcast to an attached operation or dropped as malformed; and unless the connection is shut down, the consumer deleted or recovery exhausted, every event the broker delivers is broadcast if well-formed and dropped if not |
| Acks.NoHolesFirst | crates/ventstream-jetstream/src/lib.rs:673-692 | with deliveries in order and without holes, the next delivery is a repeat or the one after the highest so far |
| Reaper.ReaperSparesTheLiving | crates/ventstream-jetstream/src/lib.rs:865-920 | under any interleaving a sweep never gets to delete the consumer of a session in use, and every session given a consumer still has it |
| Reaper.SweepCollectsIff | crates/ventstream-jetstream/src/lib.rs:865-920 | in every reachable state an undisturbed sweep deletes a listed consumer exactly when it is this pod's, was not live when the sweep began and is not in use, consumers left by earlier processes included; nothing else changes |
| Reaper.AlwaysSafe | crates/ventstream-jetstream/src/lib.rs:222-306 | every step of set-up, drop and sweep keeps sessions in use registered and the gate serialising registration with deletion |

## Left out

- Incremental.SinkAlwaysJoin: assumes each table is the primary of at most one definition and the related table of at most one entry, related rows are objects, and a related insert names an absent row; for tables shared by two entries or two definitions it is false, and `SharedTables` and `Limits` say exactly when.
- Incremental.StateInvariants: the same hypotheses; `Incremental.ApplyWired` needs only the one about roles.
- Recovery.ReplayConverges: the same hypotheses, strictly increasing watermarks, no backfill.
- Engine.JoinEngine.Run: promises the sink's join only without backfill; with backfill the source may be ahead of the events, so it promises the stored rows, the sink's keys and sound indexes. The source is one function while an event is handled and may be another at the next.
- Engine.JoinEngine.HandlePrimary: with backfill the document is one whose embedded rows are cached or supplied by the source; it is the join of the tables when the source is in step with them, see `InStep`.
- Engine.JoinEngine.HandleRelated: the same; where the source supplies a deleted child again it may be embedded again.
- Batches.SameDocumentsIff: assumes a deterministic source, object rows, no two relations of the definition on one table, and different embed names; the last is needed for one direction only.
- Backfill.AlwaysTended: assumes that at each lookup the source's rows for a key hold that key and are objects; what it holds may change between lookups.
- InStep.RelatedSendsJoin: says what is sent, not that nothing more should be; a document that embeds a row the cache does not hold is outside it. It assumes `select` keeps the related key.
- SharedTables.SharedTableUpdateGoesStaleIff: starts from exact indexes, one row key for all entries, and a primary table of one definition.
- SharedTables.SharedTableDeleteGoesStaleIff: the same.
- Acks.Pump.Run: assumes the broker delivers in sequence order without holes above the floor; the wait for buffer capacity, which only delays or ends the pump, is not modelled.
- Reaper.ReaperSparesTheLiving: assumes each session id is used once by an owner and takes the consumer name as a tuple; deletion by the broker's own inactivity threshold is not modelled.
- Keys.DocIdRoundTripIff: the parser of key texts takes arrays of strings and nulls. Reading a document id in the source also accepts other JSON, such as the number in `t:[5]`; the encoder writes none of it, nor `\u` escapes of surrogate pairs or insignificant whitespace.
- Order of object members: rendering sorts members by name; a build that preserves insertion order can compare two objects of equal kind differently.
- Floating point: numbers compare by real value, without the rounding of 64-bit conversion.
- A changed primary key in an update: the engine treats it as another row, and so does the model.
- Persistence of join state row by row, snapshot mode and the dump at its end: flushing is one atomic step.
- Set-based `fetch_many_batch` overrides, SQL and real database access: the source is a function from a query to its rows.
- Headers, target indexes, join names, metrics and logs on emitted events.
- Receipt messages and times, the state-file size limit, file modes and paths.
- Waiting and waking in the memory budget: that a waiter is eventually served is not stated.
- The control protocol, TLS, configuration field checks, GraphQL schema and filtering, HTTP serving, sinks and sources.
