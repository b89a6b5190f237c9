# Conversation store: a verified model

The repository keeps conversations, messages and snapshots in PostgreSQL behind a gRPC service. This
project models its store (`internal/state`), the schema it relies on (`migrations/0001_init.sql`) and
the page-token glue of the server, and proves what they promise.

The model has four layers.

* **Text formats.** `Utf8`, `Base64Url`, `Uuid` and `Json` are complete readers and writers. On top of
  them stand page tokens (`PageToken`), the bytes that a snapshot hashes (`SortedKeys`, `Body`, spelled
  out in `BodyText` and `JsonText`) and the nullable columns of a message body (`Columns`).
* **Tables and operations.** `Tables` holds the five tables and the effect of each SQL statement on a
  transaction's private writes; `Rows` is `ORDER BY position`. `RangeOps` has the splice on Go slices
  that share backing arrays (`GoSlice`) together with its specification, `RangeLaws` the laws of that
  specification, and `Effects` what committing each kind of transaction does to the tables.
* **The store, one transaction at a time.** `Store` is the class with the repository's operations: loops,
  statements, early returns, commit and rollback. Each statement of `Database` may fail at any moment,
  and the pool counts the failures, so that an operation reports one exactly when there was one.
  The contracts give every outcome (`AppendOutcome`, `RangeOutcome`, `SnapshotOutcome`, `Listings`).
  `Paging` and `Server` follow a reader from page to page and a client from token to token.
* **Transactions interleaved.** `Machine` runs any number of transactions statement by statement. Row
  locks on the conversation follow the conflict table of section 13.3.2 (Row-Level Locks) of the
  PostgreSQL documentation, statements see what is committed when they run, and positions come from one
  sequence that no rollback turns back. The `Machine...` modules prove what holds in every reachable
  state and over every run; `Reader` puts a paging reader beside the machine.

Conventions of the model:

* Identifiers drawn by `uuid.New` are parameters. An identifier that is already taken is a constraint
  violation in `Store`; in the machine an insert of a taken identifier leaves only the rollback.
* A transaction that has met an error takes no further step but its rollback. An append in which a later
  input does not encode is, in the machine, an append of the inputs before it that is then aborted.
  `Store` has the exact error.
* A sequence, counter, version or index column that leaves its integer type is a constraint violation.
* Strings are sequences of Unicode characters.
* In the machine the two reads at the start of a snapshot are one step; conversations are never deleted.

The documentation does not say so, but two overlapping appends to one conversation can commit out of the
order of their positions, and a reader who pages meanwhile then misses messages.
`ReaderOverlap.OverlapMisses` is such a run from the empty database. The exact condition is on the appends
that commit: the reader is covered all the way (everything at or below its cursor has been returned) exactly
if no append commits an item at or below the cursor that no page has returned
(`Reader.CoveredExactlyWithoutLateAppends`). A reader who is covered when the last page comes misses
nothing, and one who is not misses something (`Reader.LastPageExactly`). Replacements and deletions never
harm a reader, and appends that insert one at a time do not either (`Reader.SoloNeverLate`).

## Model

| member | source | states |
|---|---|---|
| MachineRuns.CountersAlwaysExact | internal/state/append.go:92-101 | in every reachable state of interleaved transactions each stored counter is the number of the conversation's items, although appends add to it and rewrites set it; the order has no repeats and lists only messages stored for that conversation |
| MachineRuns.RunKeeps | internal/state/store.go:21-38 | the invariant of committed tables, transactions in flight and pairs of them survives every run of statements, commits and rollbacks |
| MachineRuns.LockedOrderIsCommitted | internal/state/store.go:65-68 | while a replace or delete holds its FOR UPDATE lock, the order it read is still the committed order and its plan is the outcome on it, so the absolute counter it writes is right |
| MachineRuns.StepIsOneOperation | internal/state/store.go:21-38 | every step of the machine changes no committed row, or commits exactly one append, replacement, deletion or snapshot as the abstract operation on the id list and the stored messages |
| MachineRuns.NextWithoutCommit | internal/state/store.go:21-38 | statements before the commit change no committed row and no other transaction |
| MachineCommit.CommitKeeps | internal/state/range_ops.go:258-268 | a commit keeps the invariant for everyone still in flight and has the effect of its operation; a deletion takes no item of another conversation with it |
| MachineHistory.BatchFollowsCommitted | internal/state/append.go:26-66 | whatever runs between an append's first item and its commit, everything the conversation held when that item was inserted precedes every message of the batch in the order the commit leaves |
| MachineInvariant.ConflictTable | internal/state/store.go:65-68 | the row-lock conflicts are symmetric and decided by strength, as in section 13.3.2 of the PostgreSQL documentation |
| MachineProgress.DeletionDecides | internal/state/range_ops.go:133-158 | a deletion that has read its order goes on exactly if the order splits as its bounds say, one bound or two, and then to the front and back of that split |
| MachineProgress.Proceeds | internal/state/store.go:21-38 | when no other transaction works on the conversation and the tables admit the operation, its next statement is enabled and brings the commit closer |
| MachineProgress.Commits | internal/state/store.go:21-38 | such an append, replacement, deletion or snapshot has a run in which it commits with exactly its effect on the tables it found |
| MachineProgress.CommitsFromBeginning | internal/state/store.go:21-38 | the same from the moment the operation is asked for |
| MachineHistory.StepMovesVersion | internal/state/range_ops.go:96-104 | in a step either nothing about a conversation's order and existence changes or its version rises by exactly one |
| MachineHistory.VersionIdentifiesOrder | internal/state/range_ops.go:173-181 | two states of a run with the same version of a conversation have the same order and the same count |
| MachineHistory.RewriteAlwaysProceeds | internal/state/range_ops.go:258-268 | in any interleaving the inserts of a rewrite never violate the unique or foreign-key constraints |
| MachineHistory.MessagesOnlyVanish | internal/state/range_ops.go:167-172 | over a run a message row can only disappear; while it is there it does not change |
| MachineHistory.DeletedCannotReturn | internal/state/range_ops.go:212-245 | after a deletion has committed, no replacement in any later state can insert one of the deleted ids, as long as identifiers are not drawn twice |
| MachineHistory.ReplacedStaysStored | internal/state/range_ops.go:41-94 | committing a replacement keeps every message stored |
| MachineReinsertion.StoredUntilDeleted | internal/state/range_ops.go:167-172 | over any run a stored message stays, in the same row, until a deletion whose range holds it commits; no append, replacement, snapshot or rollback takes it away |
| MachineReinsertion.StoredExactlyUntilDeleted | internal/state/range_ops.go:167-172 | as long as identifiers are not drawn twice, a message is still stored after a run exactly if no deletion of it has committed |
| MachineReinsertion.ListedAsAppended | internal/state/list.go:57-92 | after any run in which no deletion of a message committed, a listing that shows it shows it as the append returned it |
| MachineReinsertion.RemovedCanReturn | internal/state/range_ops.go:212-245 | after a committed replacement and any run, a replacement that inserts ids the first one removed, with fitting bounds and no repeat, is accepted exactly if none of them has been deleted since |
| MachineReinsertion.FittingDecides | internal/state/range_ops.go:77-90 | with fitting bounds and no repeat, only the existence of the inserted messages decides, and an accepted replacement goes on to write exactly the spliced order |
| MachineHistory.SnapshotsImmutable | internal/state/snapshot.go:80-137 | a committed snapshot is never changed or removed, whatever runs later |
| MachineReadable.EveryRowDecodes | internal/state/append.go:67-88 | in every reachable state every message and every snapshot item decodes, so no listing or snapshot can fail on its content |
| MachineReadable.ListingsAlwaysDecode | internal/state/list.go:86-89 | in every reachable state a listing of messages or of a snapshot fails only for an id that does not exist |
| MachineSnapshots.SnapshotPagesFixed | internal/state/snapshot.go:148-288 | once a snapshot is committed, every page of its two listings is the same in every later state |
| MachineSnapshots.SnapshotListsMessages | internal/state/snapshot.go:85-134 | a snapshot that is there after a run lists the requested ids in order, duplicates kept, each message as it was stored at the fetch |
| MachineSnapshots.SnapshotListsAppended | internal/state/snapshot.go:92-134 | from append through snapshot to listing a message stays exactly what the append returned, whatever ran in between and even if it is deleted later |
| Reader.NothingMissed | internal/state/list.go:118-156 | appends, replacements and deletions run between the pages of a reader, overlapping or not: unless an append commits an unreturned item at or below the cursor, a page without a cursor means that every message then in the conversation has been returned |
| Reader.CoveredExactlyWithoutLateAppends | internal/state/append.go:63-65 | over every session the reader is covered all the way exactly if no append commits an item at or below the cursor that no page has returned |
| Reader.SoloNeverLate | migrations/0001_init.sql:33-39 | appends that insert one at a time, so that commits follow position order, never commit such an item |
| Reader.NothingMissedInOrder | internal/state/list.go:118-156 | so with commits in position order a reader whose page has no cursor has been given every message then in the conversation |
| Reader.LastPageExactly | internal/state/list.go:118-156 | a page without a cursor completes a reader exactly if the reader was covered |
| Reader.CompleteExactlyWhenCovered | internal/state/list.go:118-156 | from any point, following cursors to the end yields the whole order exactly when everything at or below the cursor has been returned |
| Reader.AppendCoveredExactly | internal/state/append.go:63-65 | a committing append leaves a covered reader covered exactly when nothing it inserted at or below the cursor is unreturned |
| Reader.StepKeepsInFlight | internal/state/range_ops.go:258-268 | through every statement, commit and rollback of anyone, what replacements and deletions in flight have inserted lies behind everything committed and behind any cursor issued; the same holds of appends while no two have inserted items at once |
| Reader.ActCoveredExactly | internal/state/range_ops.go:258-268 | of everything that can happen only a late append uncovers a reader |
| ReaderOverlap.OverlapMisses | internal/state/append.go:63-65 | a run from the empty database with two overlapping appends after which a page without cursor leaves a listed message unreturned |
| RangeOps.CutRange | internal/state/range_ops.go:28-75 | the index map and the overlapping shift-left leave exactly the order without the range, and `replaced` keeps the original ids although the array under it is overwritten |
| RangeOps.RemoveRange | internal/state/range_ops.go:54-56 | shifting the tail left in the shared array removes exactly the range; the ids copied out first are unharmed |
| RangeOps.InsertAt | internal/state/range_ops.go:81-86 | the nested append yields the head, the new ids and the tail, with and without spare capacity in the shared array |
| RangeOps.EnsureMessagesExist | internal/state/range_ops.go:212-245 | accepts exactly when every id is stored for the conversation |
| RangeOps.EnsureUnique | internal/state/range_ops.go:247-256 | accepts exactly when the list has no repeat |
| RangeOps.PlanDeletion | internal/state/range_ops.go:129-158 | computes the deletion whose range, result and errors DeleteWithFit and DeleteWithoutFit fix |
| RangeLaws.ReplaceWithFit | internal/state/range_ops.go:41-90 | if the order splits as the bounds say, the outcome is message-not-found when an inserted id is not stored, duplicate when the new list would repeat an id, and otherwise the spliced order with the removed ids |
| RangeLaws.ReplaceWithoutFit | internal/state/range_ops.go:41-75 | if it does not split so, the error is message-not-found when a bound is not in the order and invalid-range otherwise |
| RangeLaws.FitsAreBounds | internal/state/range_ops.go:28-75 | a duplicate-free order splits in at most one way, and the code finds it |
| RangeLaws.ReplaceUndo | internal/state/range_ops.go:105-107 | replacing first to last of the inserted ids by the returned ids restores the order |
| RangeLaws.RemovalUndo | internal/state/range_ops.go:58-75 | a pure removal is undone by a one-sided insertion at either neighbour that is left |
| RangeLaws.DeleteIsEmptyReplace | internal/state/range_ops.go:133-158 | over the same two bounds deleting and replacing by nothing leave the same order, name the same ids and fail alike |
| RangeLaws.DeleteWithFit | internal/state/range_ops.go:137-158 | if the order splits into a front, a range from the first bound to the last and a back, a missing bound standing for the end of the order, the deletion takes exactly the range and leaves front and back |
| RangeLaws.DeleteWithoutFit | internal/state/range_ops.go:117-154 | if it does not, the error is message-not-found when a non-empty order misses a bound and invalid-range otherwise |
| RangeLaws.DeleteSplits | internal/state/range_ops.go:156-158 | a successful deletion takes the contiguous range its bounds name; what is left and what is taken share nothing and make up the order |
| Store.Store.AppendConversationMessages | internal/state/append.go:12-112 | success puts the batch at the end of the order, stores each message as returned, counts it, raises the version by one and sets the time; a failure changes no row; if no statement failed and no identifier, position or counter is used up, it succeeds exactly when every input is recoverable and otherwise reports the first bad input |
| Store.Store.AppendAll | internal/state/append.go:25-89 | the loop has inserted every message and item of the batch at fresh positions and returned what the rows decode to, or has failed for a stated cause |
| Store.Store.AppendOne | internal/state/append.go:26-88 | one iteration succeeds only on a recoverable body, which it returns as it will be read back |
| Store.Store.ReplaceConversationMessagesRange | internal/state/range_ops.go:12-114 | success is exactly the specified splice, keeps all messages, sets exact count, next version and time; a failure changes no row; a database failure is reported exactly when a statement failed, and otherwise, unless positions are used up, the outcome is the specified success or error |
| Store.Store.PlanReplacement | internal/state/range_ops.go:28-90 | the slice algorithm with its checks computes the specified outcome, errors in the specified order, and reports a database failure only when its query failed; the clamp of the insert position never acts |
| Store.Store.RewriteOrder | internal/state/range_ops.go:258-268 | the rows are cleared and inserted in order; no constraint stops it until positions run out |
| Store.Store.DeleteConversationMessagesRange | internal/state/range_ops.go:116-190 | success removes exactly the range and its message rows and nothing of any other conversation; a failure changes no row; a database failure is reported exactly when a statement failed, and otherwise, unless positions are used up, the outcome is the specified success or error |
| Store.Store.FetchOrder | internal/state/range_ops.go:192-210 | returns the order of the conversation as the transaction sees it |
| Store.Store.CreateSnapshot | internal/state/snapshot.go:16-146 | success adds one snapshot that lists the requested messages as stored with the hashes of their deterministic bytes and changes nothing else; if no statement failed and the identifier is free it succeeds exactly when the conversation and all messages are there, and otherwise reports what is missing |
| Store.Store.UniqueUUIDs | internal/state/snapshot.go:348-359 | keeps the first occurrence of each id |
| Store.Store.CopyRow | internal/state/snapshot.go:90-104 | decodes, serialises for the hash and encodes again, as the specification of a copy says |
| Store.Store.EndTx | internal/state/store.go:21-38 | commits or leaves the committed tables alone; after an error it rolls back, and only a failed commit is reported as one |
| Store.Store.ListConversationMessages | internal/state/list.go:11-104 | returns the page that MessagePageShows describes, or not-found, or a database failure exactly when a query failed; never a decode error |
| Store.Store.ListConversationMessageIDs | internal/state/list.go:106-163 | returns the page that IDPageShows describes, with the same errors |
| Store.Store.ListSnapshotMessages | internal/state/snapshot.go:148-230 | returns the page that SnapshotPageShows describes, or not-found, or a database failure exactly when a query failed |
| Store.Store.ListSnapshotMessageIDs | internal/state/snapshot.go:232-288 | returns the page that SnapshotIDPageShows describes, with the same errors |
| AppendOutcome.FailureIsExact | internal/state/append.go:26-30 | a failed append reports the error of its first bad input unless an identifier, position or counter is used up or a statement failed |
| AppendOutcome.AppendSucceeds | internal/state/append.go:25-106 | the private writes of a finished append, once committed, are consistent and readable and the promised outcome |
| SnapshotOutcome.FirstOccurrencesSound | internal/state/snapshot.go:348-359 | the deduplicated list has no repeats and the same ids |
| SnapshotOutcome.SnapshotSucceeds | internal/state/snapshot.go:85-137 | the copies inserted one by one make the promised snapshot |
| RangeOutcome.RewriteSucceeds | internal/state/range_ops.go:92-101 | the private writes of a finished rewrite, once committed, leave exactly the target order with an exact absolute count |
| RangeOutcome.DeletionDrops | internal/state/range_ops.go:167-172 | deleting the message rows after the rewrite removes exactly the range and cascades to no item of any conversation |
| RangeOutcome.ReplaceIsUndoable | internal/state/range_ops.go:105-107 | after a successful replacement by a non-empty list, the request made from its own result restores the order |
| RangeOutcome.RemovalIsUndoable | internal/state/range_ops.go:58-75 | after a removal that leaves a neighbour a one-sided insertion restores the order |
| RangeOutcome.DeletedIsGone | internal/state/range_ops.go:167-172 | after a deletion a replacement that inserts a deleted id fails, with message-not-found when its bounds fit |
| Effects.CommitAppend | internal/state/append.go:33-101 | committing an append keeps the tables consistent; its batch appears in input order among the items already there, its rows are stored beside those already there, and nothing else changes |
| Effects.CommitAppendLast | internal/state/append.go:63-65 | alone, an append puts its batch at the end |
| Effects.CommitRewrite | internal/state/range_ops.go:92-101 | committing a rewrite keeps the tables consistent; the order is exactly the target and no other conversation is touched |
| Effects.DropTouchesNoItem | internal/state/range_ops.go:167-172 | the cascade of the message deletion finds no item |
| Effects.RewriteNeverRefused | migrations/0001_init.sql:33-39 | an insert of a duplicate-free order of stored messages meets no unique or foreign-key violation |
| Effects.RelativeCount | internal/state/append.go:92-101 | adding the batch size to the stored counter makes it exact, whether the conversation is old or new |
| Effects.ReplaceTargets | internal/state/range_ops.go:77-90 | what a replacement writes is a duplicate-free order of messages stored for the conversation |
| Effects.CommitSnapshot | internal/state/snapshot.go:80-137 | committing a snapshot adds it and changes nothing else |
| Tables.CopyIsFaithful | internal/state/snapshot.go:90-104 | the copy of a stored row has its columns, lists as the same message and hashes its deterministic bytes |
| Tables.CounterIsCount | migrations/0001_init.sql:14-20 | in consistent tables the stored counter is the number of items |
| Tables.OrderSound | migrations/0001_init.sql:33-39 | in consistent tables the order has no repeats and lists only the conversation's own messages |
| Rows.SelectionUnique | internal/state/range_ops.go:192-210 | the only list that holds every row of a range once and ascending is the one the model calls ORDER BY |
| Rows.Weave | internal/state/append.go:63-65 | rows of two writers interleave by position and each keeps its own order |
| Paging.CollectPage | internal/state/list.go:52-98 | the row loop returns the first rows up to the limit and a cursor exactly when another row follows; a row that does not convert fails the page |
| Paging.LookAheadSuffices | internal/state/list.go:43-44 | asking for one row more than the page is enough to tell whether rows remain |
| Paging.CursorWhenMore | internal/state/list.go:82-98 | a cursor is returned exactly when rows are left behind the page |
| Paging.PageIsFirst | internal/state/list.go:37-98 | a page is the first positions behind the cursor, ascending: 50 of them when the size is not positive, at most 100, the size otherwise, or all if fewer; its cursor is the last of them when there are more |
| Paging.PageSplits | internal/state/list.go:37-44 | a page and what lies behind its cursor are what there was; with a cursor the page is full and something remains |
| Paging.FullPaging | internal/state/list.go:27-98 | for any page sizes, following cursors ends, the pages make up exactly the rows in order without gap or repeat, and no page after a cursor is empty |
| Paging.FilterKeepsOrder | internal/state/list.go:27-36 | listing the filtered rows is listing all rows and dropping those that do not match |
| Listings.MessagePageShows | internal/state/list.go:19-98 | a page of messages holds, for the first positions behind the cursor whose message's role and kind are among those given, exactly the stored messages |
| Listings.IDPageShows | internal/state/list.go:114-157 | a page of ids holds the ids at the first positions behind the cursor |
| Listings.SnapshotPageShows | internal/state/snapshot.go:155-224 | a page of a snapshot holds exactly the copies at the first indices behind the cursor |
| Listings.SnapshotIDPageShows | internal/state/snapshot.go:238-282 | a page of a snapshot's ids holds the ids at the first indices behind the cursor |
| Listings.ListedIsStored | internal/state/list.go:57-92 | a listed message is the one stored under its id, and the filter wants it |
| Listings.ListedIsOrder | internal/state/list.go:19-36 | the joined listing runs through the order of the conversation, and a filter keeps the matching messages of it |
| Listings.ListingsNeverFail | internal/state/list.go:86-89 | on readable tables listings fail only for a conversation or snapshot that does not exist |
| Listings.ListingsAgree | internal/state/list.go:106-163 | the unfiltered message listing and the id listing agree page by page, cursor included |
| Listings.SnapshotListingsAgree | internal/state/snapshot.go:232-288 | so do the two listings of a snapshot |
| Server.CursorOfToken | internal/server/server.go:63-73 | the token of a response, sent back, is the cursor it was made from, and there is a token exactly when there is a cursor |
| Server.ForeignTokenRefused | internal/server/server.go:66-71 | a token made for another conversation or snapshot is refused |
| Server.ClientReceivesAll | internal/server/server.go:98-104 | a client that passes each token back receives every row once and in order, all responses succeed, and only the last has no token |
| Server.ClientListsConversation | internal/server/server.go:57-106 | for any filter and page sizes, as many requests as the order is long and at least one give the client, in order, exactly the stored messages of those ids of the order whose role and kind the filter names |
| Server.ListingAfterAppend | internal/server/server.go:57-106 | a listing made after an append ends with the messages the append returned |
| Server.ClientListsIDs | internal/server/server.go:195-227 | the client of the id listing receives exactly the order |
| Server.ClientListsSnapshot | internal/server/server.go:253-288 | for any page sizes the client receives exactly the copies of the snapshot in order |
| Server.ClientListsSnapshotIDs | internal/server/server.go:290-322 | the client of the snapshot's id listing receives exactly the copied ids in order |
| Server.SnapshotClientsAgree | internal/server/server.go:290-322 | the clients of a snapshot's two listings receive the same ids and tokens, response by response |
| Server.ClientsAgree | internal/server/server.go:195-227 | a client of the unfiltered message listing and one of the id listing receive the same ids and tokens, response by response |
| PageToken.TokenRoundTrip | internal/state/pagination.go:32-58 | for every UUID and every int64 a token decodes to exactly what it was made from |
| PageToken.TokenKindsDisjoint | internal/state/pagination.go:65-91 | a snapshot token never decodes as a conversation token, nor the reverse |
| PageToken.NormalizePageSize | internal/state/pagination.go:12-25 | 50 for a size that is not positive, 100 for one above 100, the size itself otherwise |
| PageToken.TokenSays | internal/state/pagination.go:27-39 | a token is base64url of a JSON object with the canonical identifier and the decimal position under the source's names |
| Uuid.ParseToString | internal/state/pagination.go:33 | the canonical text of a UUID parses back to it |
| Json.ParsePrint | internal/state/pagination.go:34 | every printable JSON value parses back to itself |
| Json.PrintInjective | internal/state/types.go:151 | two printable JSON values with the same text are equal |
| Json.ParsePrintInt64 | internal/state/pagination.go:28-29 | every int64 survives its decimal text |
| Base64Url.DecodeEncode | internal/state/pagination.go:38 | unpadded base64url decodes to the bytes encoded |
| Utf8.DecodeEncode | internal/state/pagination.go:34 | UTF-8 decodes to the characters encoded |
| Body.FingerprintExact | internal/state/types.go:91-152 | the hashed bytes of two bodies are equal exactly when the bodies have the same content, nil and empty metadata identified |
| Body.MarshalDeterministicJSON | internal/state/types.go:91-152 | computes the bytes that BytesSayBody describes, whatever order the map yields its keys in |
| BodyText.BytesSayBody | internal/state/types.go:91-152 | read back as JSON the hashed bytes are the fields of the body under the source's names and in its order, metadata as key and value pairs with ascending keys and absent when empty |
| BodyText.BytesAreCompact | internal/state/types.go:151 | the hashed text holds no control, HTML or line separator character and no space outside strings |
| JsonText.EscapeTable | internal/state/types.go:151 | the escapes of json.Marshal, character by character |
| SortedKeys.OfMap | internal/state/types.go:120-130 | collecting the keys in any order and sorting them gives the one ascending list of them |
| SortedKeys.AscendingUnique | internal/state/types.go:126 | there is only one ascending list of a set of strings |
| Columns.ColumnsRoundTrip | internal/state/convert.go:23-131 | decoding the columns of a valid body succeeds exactly on the recoverable bodies and returns the same content |
| Columns.ReencodeReproduces | internal/state/convert.go:23-67 | encoding what was decoded reproduces the columns |
| Columns.ReformattedMetadata | internal/state/convert.go:106-113 | the round trip survives a metadata column that comes back with its JSON written differently |
| Columns.EncodeMessageBody | internal/state/convert.go:23-67 | computes the specified columns, or refuses exactly the invalid bodies |
| Columns.EncodeAccepts | internal/state/types.go:68-89 | accepted are exactly a text alone and a tool output alone with either text or image alone |

## Left out

- gRPC wiring, status codes, configuration, migrations runner, deployment files: no property beyond field copying.
- Field copying between protocol messages and store types (internal/server/converter.go) and the copy of roles into the query (internal/state/list.go:165-171).
- SHA-256: the column body_sha256 is represented by the bytes whose hash is stored.
- Timestamps are opaque values without order.
- UUID randomness: fresh identifiers are hypotheses (`NeverDrawn`, `Alone`) or parameters.
- JSONB: the tables keep the metadata text as written; `Columns.ReformattedMetadata` covers text that comes back reformatted. Characters the database refuses in text columns are database failures.
- Strings that are not valid UTF-8: strings are sequences of Unicode characters.
- Metadata and page of one listing come from two statements; under interleaving nothing is said about the two together.
- Snapshot items are kept inside their snapshot row; their foreign key is the row they are in.
- Deadlocks and waiting: a step that has to wait is not enabled; progress is proved for operations that meet no other transaction on their conversation, not for those that have to wait.
- Locks on message rows: only the transaction that inserted a message or holds the conversation's FOR UPDATE lock refers to it.
- Contiguity of a batch when two appends to one conversation overlap: only its inner order and its place behind what was committed before hold.
- MachineHistory.BatchFollowsCommitted: says nothing about items committed between the first insertion and the commit, whose place depends on the interleaving.
- The library's sort algorithm: an insertion sort stands for it; `SortedKeys.AscendingUnique` makes the result independent of the algorithm.
- GetConversation, an unlocked read of one row.
