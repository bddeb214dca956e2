# drizzle-pulse: incremental views over an at-least-once log

drizzle-pulse turns Postgres's write-ahead log into live query results. A runtime decodes each
committed transaction into row events, stores them in events tables and hands them to in-process
collections through a tap; HTTP clients pull them from the events tables with a cursor. Both kinds of
consumer keep a sorted set of rows with the same merge core, start it from a SELECT that may be ahead
of the log, and are fed the log again after every reconnect. This project models that machinery and
proves that the rows shown are the right ones.

## How the model is laid out

| file | what it holds |
|---|---|
| Values, MergeCore | pk order; the sorted array and pk map (`PulseMergeCore`, both variants) against a fold over a plain map |
| Filter, SqlPredicate, SqlVerdict, FilterMeetsSql | the in-memory WHERE evaluator, the predicate builder under SQL's three-valued logic, SQL's answer read off filter and row, and exactly where the two agree |
| Queries, Wal, Replay | rows and projections; decoding and tap events; what replaying a log onto a view that is ahead of it does |
| Collection, Handshake | one embedded collection; the handshake as a machine with every interleaving |
| Events, Pull, PullHandler, Cursor | the events table and the way back; the stateless pull; batches and tokens |
| PulseQuery, Paging | the HTTP client; pages, windows and load-more |
| Limited | replay through the insert gate of a limited query |
| HttpMachine, HttpPull, HttpRead, HttpSync, HttpRuns, HttpClient | the pull protocol as a machine: its steps, what pulls and reads do to its invariant, whole runs, two runs that lose a row, and the client's class against it |
| Runtime, DurableLog | persisting under the LSN watermark; the log over crashes, boots, resumes and recreates |
| Bootstrap, Names | boot-time provisioning; events-table names |

Objects whose methods update fields are classes (`PulseMergeCore`, `EmbeddedCollection`,
`PulseQuery`, `PulseStore`, two views of `PulseRuntime`); their methods are tied to step functions on
values, and the machines run on those.

The shared idea is replay absorption. A view taken at commit b is fed events from some earlier commit
on. Inserts never overwrite and events that match neither before nor after are suppressed, so the
view is for a while neither the old state nor the new one; but each pk always shows the table as it
stood somewhere between the position of the log and b, and when the position reaches b that leaves
one possibility.

## What the theorems assume

- Primary keys are numbers or strings, one type per table, never NaN, and every intermediate table
  state is pk-unique (no deferred primary key). Entries with other pks are kept by the merge core and
  covered there.
- The log carries full old rows. Decoding of anything else is modelled: such events are skipped.
- A commit is atomic and visible to every SELECT that starts after it. This excludes the few
  microseconds described at packages/drizzle-pulse/src/server/pulse-runtime.ts:391-398, in which a
  commit can be below the watermark and not yet visible.
- Commits after an exported snapshot have an LSN strictly above its start position, which is what
  deduplication by `<=` needs.
- Convergence of a collection is claimed once the handshake that owns it has succeeded; a failed
  handshake discards its buffer, and a factory call whose handshake was superseded may return before
  the newer one ends.
- The in-memory filter and SQL agree on the rows at hand where a collection is compared with a SELECT.
  `FragmentFiltersAgree` says when they do.
- For a limited HTTP query new rows come, in display order, before every row seen until then: the
  invariant stated at packages/drizzle-pulse/src/shared/pk-utils.ts:29-38. Unlimited queries need none.
- No rotation happens while a subscribe or reset handler is between its cursor read and its SELECT, or
  while a pull is between its epoch check and minting its token; and a load-more is not in flight
  together with a pull.
- Filters are compared on rows and operands that Postgres can compare: NULL or values of the column's
  type. A column is numeric (integers, floats, and `numeric`, which arrives as text), text, ranked (it
  arrives as text that SQL orders otherwise: an enum, a uuid, a timestamp or date in string mode),
  boolean, or other (it arrives as a value the evaluator can only hold against another with `===`: a
  Date, a bigint, jsonb).
- No registered source derives an events table named `pulse_meta` or `pulse_stream`.
- Fresh epochs have never been given out; the hash of a table's DDL is injective.

## Where code and expectation part

Each of these is a result with the exact condition under which the expectation holds.

- The evaluator and SQL do not always give the same answer. `TestMeetsIff` has the condition for every
  single test. `ne` null agrees on nulls only, `gte` and `lte` null on everything but null, an undefined
  filter value on an absent column only, and texts that read as numbers when both readings stand in the
  same relation. Two Dates agree only where no relation between them is asked for that SQL could find:
  the evaluator holds them neither equal nor greater nor less, so a collection filtered on a date shows
  its baseline rows and suppresses their events (`DateDiffers`). Numbers agree where JavaScript's
  rounding keeps their relation (`RoundingDiffers`), enums and their like where the order of texts
  does (`EnumDiffers`). `OrMeetsIff` has the condition for an OR of which the builder drops children,
  `NotMeetsIff` for a NOT, and `MeetsIffStraight` for whole filters: they and everything within them are
  answered alike iff no part trips on the row. A part that trips may still be outvoted by another; the
  answer to the whole alone is `MeetsIsVerdict`. Nine small filters show the ways to differ.
- A reset returns only what lies within the client's window, even for an unlimited query. A matching row
  is then missing iff it lay past the window's trailing end and no event has addressed it since
  (`ResetIsWholeIff`). `CapResetLosesRow` is a run, for every cap, that loses a row this way.
- A load-more asks for what follows the furthest row shown. It skips exactly the rows left out before
  that one (`LoadMoreSkips`, `CaughtUpLoadMoreSkips`): none while no row shown lies past what the client
  has read, but an update may bring one there (`LoadMoreSkipsRow`, a run).
- Deselecting every column switches the column filter off, and then baseline and events project alike
  only if the pk is the whole row (`ProjectionsAgree`).
- Two tables are registered as one iff they are the same or their dotted paths coincide
  (`QualifiedCollideIff`).
- The resume check asks for more than it needs. Resuming is safe iff no commit lies above the watermark
  and below the confirmed flush (`ResumeIsSafeIff`); the check wants no position between the two, and so
  recreates a slot after an ordinary acknowledgement (`OrdinaryAckRecreates`, a run).
- A token is minted with the epoch of the moment. A rotation after the snapshot was read pairs the two
  wrongly; the marker of the new log puts it right unless the table was empty at the rotation
  (`MixedTokenAnswers`).
- A pull for a query without an epoch, or whose reset throws, fails its whole batch (`PullBatch`), though
  items are otherwise answered apart.

## Model

| member | source | states |
|---|---|---|
| `Values.BeforeIsStrictOrder` | packages/drizzle-pulse/src/shared/pk-utils.ts:16-27 | Display order is a strict total order on primary keys of one type, in either direction: what sorting, binary search and windows rest on |
| `MergeCore.PulseMergeCore.ApplyEvents` | packages/drizzle-pulse/src/shared/pulse-merge-core.ts:36-95 | A batch keeps entries strictly sorted and mirrored by the pk map, makes the pk-to-row view the fold of the batch over the old view, and returns true iff some event wrote state |
| `MergeCore.PulseMergeCore.ApplyOne` | packages/drizzle-pulse/src/shared/pulse-merge-core.ts:41-88 | One event: insert never overwrites, update replaces, removes or upserts ungated, delete removes, each keeping array and map coherent |
| `MergeCore.PulseMergeCore.InsertSorted` | packages/drizzle-pulse/src/shared/pulse-merge-core.ts:107-136 | The binary search adds the new entry and nothing else, at the one place that keeps the order, behind all non-comparable entries |
| `MergeCore.PulseMergeCore.AcceptInsert` | packages/drizzle-pulse/src/shared/ranged-merge-core.ts:67-74 | Whether a new row is let into the window, for both cores |
| `MergeCore.PulseMergeCore.Rebuild` | packages/drizzle-pulse/src/shared/pulse-merge-core.ts:24-33 | Takes any entries as they come; sorted ones make the map mirror them |
| `MergeCore.PulseMergeCore.AppendRows` | packages/drizzle-pulse/src/shared/ranged-merge-core.ts:36-49 | A page goes to the end minus the rows already held, true iff a row was added |
| `MergeCore.PulseMergeCore.Clear` | packages/drizzle-pulse/src/shared/ranged-merge-core.ts:51-55 | An empty core; the ranged one forgets its window too |
| `MergeCore.FoldSplits` | packages/drizzle-pulse/src/shared/pulse-merge-core.ts:36-95 | Batches may be concatenated or split anywhere while the insert gate stands still |
| `MergeCore.IneffectiveBatchIsSilent` | packages/drizzle-pulse/src/shared/pulse-merge-core.ts:36-95 | A batch reported as without effect changed nothing |
| `MergeCore.ListingIsSorted` | packages/drizzle-pulse/src/shared/pulse-merge-core.ts:102-136 | A view has a sorted listing that holds every one of its rows |
| `MergeCore.ListingIsUnique` | packages/drizzle-pulse/src/shared/pulse-merge-core.ts:102-136 | Sorted entries are determined by the view they mirror, so equal views show equal lists |
| `Filter.ParsedIsExclusive` | packages/drizzle-pulse/src/shared/filter-ast.ts:86-155 | A filter that parses has, at every level, columns only or one of AND, OR, NOT only |
| `Filter.ScalarOrderIsCyclic` | packages/drizzle-pulse/src/shared/filter-ast.ts:37-72 | The comparison behind gt and lt is not an order: '9' < '10' < '1a' < '9' |
| `SqlPredicate.BuildWhereAstPredicate` | packages/drizzle-pulse/src/server/drizzle-utils.ts:98-157 | The builder with its clause lists returns the predicate of the specification or throws when that does |
| `SqlVerdict.VerdictIsSql` | packages/drizzle-pulse/src/server/drizzle-utils.ts:49-157 | For every filter that builds and compares what can be compared, on every row, nulls included: the built predicate is TRUE iff the filter keeps the row, FALSE iff it refutes it, both read off filter and row in memory |
| `SqlVerdict.VacuousIs` | packages/drizzle-pulse/src/server/drizzle-utils.ts:98-157 | The filters that make no clause, by their shape |
| `FilterMeetsSql.TestMeetsIff` | packages/drizzle-pulse/src/shared/filter-ast.ts:160-222 | Every operator with every operand Postgres can compare, null and undefined among them, in every kind of column (numeric, text, enum and the like, boolean, date and bigint and jsonb): evaluator and SQL agree on a test iff its stated condition holds of the column value |
| `FilterMeetsSql.TextEqualityMeets` | packages/drizzle-pulse/src/shared/filter-ast.ts:37-72 | That condition for equality of texts: they are the same, one is no number, or they are different numbers |
| `FilterMeetsSql.ExactNumbersMeet` | packages/drizzle-pulse/src/shared/filter-ast.ts:37-72 | In a numeric column both sides compare alike, with every operator, where JavaScript reads both numbers exactly |
| `FilterMeetsSql.OrMeetsIff` | packages/drizzle-pulse/src/server/drizzle-utils.ts:122-138 | An OR over children that agree, vacuous ones among them, agrees iff no child is vacuous, all are, or one that is not accepts the row |
| `FilterMeetsSql.NotMeetsIff` | packages/drizzle-pulse/src/server/drizzle-utils.ts:140-149 | A NOT over a child that agrees agrees iff the child is not vacuous and accepts or refutes the row |
| `FilterMeetsSql.MeetsIffStraight` | packages/drizzle-pulse/src/shared/filter-ast.ts:224-251 | Over whole parsed filters: both sides answer alike on the filter and on every filter and test within it iff no test, no OR and no NOT trips on the row |
| `FilterMeetsSql.MeetsIsVerdict` | packages/drizzle-pulse/src/shared/filter-ast.ts:239-251 | For the answer to the whole filter alone: both sides agree iff the evaluator says what the in-memory verdict says |
| `FilterMeetsSql.EvaluatorMeetsSql` | packages/drizzle-pulse/src/shared/filter-ast.ts:239-251 | The promise of the source where it holds: typed tests, no OR mixing vacuous children with others, no vacuous NOT, and no null under a NOT; nulls elsewhere are no obstacle |
| `FilterMeetsSql.NotMeetsSqlExactly` | packages/drizzle-pulse/src/shared/filter-ast.ts:224-237 | Where nulls are the only difficulty, both sides answer alike throughout iff every NOT, at any depth, is over a filter that accepts the row or denies it on columns that are not null |
| `FilterMeetsSql.NotOverNullDiffers` | packages/drizzle-pulse/src/shared/filter-ast.ts:160-244 | Counterexample: NOT over a null column |
| `FilterMeetsSql.NullOperandDiffers` | packages/drizzle-pulse/src/server/drizzle-utils.ts:49-96 | Counterexample: an operator with a null operand |
| `FilterMeetsSql.UndefinedFilterDiffers` | packages/drizzle-pulse/src/server/drizzle-utils.ts:49-96 | Counterexample: an undefined filter value, no clause in SQL, an unmatchable one in memory |
| `FilterMeetsSql.NumericTextDiffers` | packages/drizzle-pulse/src/shared/filter-ast.ts:37-72 | Counterexample: numeric-looking text in a text column |
| `FilterMeetsSql.DateDiffers` | packages/drizzle-pulse/src/shared/filter-ast.ts:54-72 | Counterexample, for any two Date objects: of equal dates the evaluator says they differ, of a later one that it is not greater |
| `FilterMeetsSql.RoundingDiffers` | packages/drizzle-pulse/src/shared/filter-ast.ts:54-60 | Counterexample: numbers in a numeric column that JavaScript rounds to the same one |
| `FilterMeetsSql.EnumDiffers` | packages/drizzle-pulse/src/shared/filter-ast.ts:62-65 | Counterexample: an enum declared in another order than that of its texts |
| `FilterMeetsSql.VacuousOrDiffers` | packages/drizzle-pulse/src/server/drizzle-utils.ts:98-157 | Counterexample: an empty child of an OR |
| `FilterMeetsSql.VacuousNotDiffers` | packages/drizzle-pulse/src/server/drizzle-utils.ts:98-157 | Counterexample: an empty NOT |
| `Queries.ExtractRowByKey` | packages/drizzle-pulse/src/shared/event-normalization.ts:19-32 | The record filled key by key is the row under the prefix, null iff empty |
| `Queries.ApplyColumnFilterByKey` | packages/drizzle-pulse/src/shared/column-filter.ts:17-38 | Keeps exactly $pk and the selected columns, everything when none is selected |
| `Queries.ProjectionsAgree` | packages/drizzle-pulse/src/shared/projection.ts:8-53 | A SELECTed row and an event row project to the same visible row iff some column is selected or the pk is the whole row |
| `Queries.SelectMeetsView` | packages/drizzle-pulse/src/server/pulse-sql.ts:22-62 | The baseline SELECT gives the view the events maintain |
| `Wal.DecodeTracksTable` | packages/drizzle-pulse/src/server/pulse-runtime.ts:1082-1127 | Decoding a row event loses nothing: the decoded events, a pk change as delete then insert, are well-formed in turn and take the table where the row event takes it |
| `Wal.DecodeAllTracksTable` | packages/drizzle-pulse/src/server/pulse-runtime.ts:997-1006 | The same for a whole transaction |
| `Wal.TapRefreshes` | packages/drizzle-pulse/src/client/embedded/tap-events.ts:24-63 | Tap-building and merging an event refreshes any view, even one ahead of the log, by that event |
| `Replay.RefreshCatches` | packages/drizzle-pulse/src/client/embedded/tap-events.ts:24-63 | Against any view: each pk ends up current, unless it was not current before and is left alone |
| `Replay.RefreshSquare` | packages/drizzle-pulse/src/shared/pulse-merge-core.ts:41-91 | Refreshing the view of a table by an event gives the view of the table after the event |
| `Replay.WalSquare` | packages/drizzle-pulse/src/server/pulse-runtime.ts:1082-1127 | The same from the WAL down: decode, tap-build, merge on the view of T equals the view of the row event applied to T |
| `Replay.ReplayIsAbsorbed` | packages/drizzle-pulse/src/shared/pulse-merge-core.ts:41-91 | From the baseline at b, replaying from any earlier position gives exactly the view at every n >= b; before b each pk shows the table somewhere between replay and baseline |
| `Collection.EmbeddedCollection.HandleTapEvent` | packages/drizzle-pulse/src/client/embedded/index.ts:191-198 | A tapped event is buffered, dropped below the floor, or merged, as the step on values says |
| `Collection.EmbeddedCollection.ApplyEvent` | packages/drizzle-pulse/src/client/embedded/index.ts:184-189 | Merges one event and tells listeners only if state changed |
| `Collection.EmbeddedCollection.BeginHandshake` | packages/drizzle-pulse/src/client/embedded/index.ts:220-226 | A new handshake takes the generation and an empty buffer |
| `Collection.EmbeddedCollection.ResolveHandshake` | packages/drizzle-pulse/src/client/embedded/index.ts:240-251 | Only the owning handshake rebuilds and drains its buffer above the watermark, with one notification for each drained event that changed state; a superseded one changes nothing |
| `Collection.EmbeddedCollection.RejectHandshake` | packages/drizzle-pulse/src/client/embedded/index.ts:230-239 | Only the owning handshake stops buffering when it fails |
| `Collection.EmbeddedCollection.List` | packages/drizzle-pulse/src/client/embedded/index.ts:71-73 | list() is the ordered listing of the view |
| `Handshake.HandshakeOwnership` | packages/drizzle-pulse/src/client/embedded/index.ts:219-251 | In every run baselining is up exactly while the handshake numbered handshakeGen is in flight, and the buffer is empty whenever it is down |
| `Handshake.CollectionConverges` | packages/drizzle-pulse/src/client/embedded/index.ts:175-251 | In every interleaving of commits, at-least-once deliveries, tap restarts and overlapping handshakes: once the current handshake has succeeded and deliveries reach n at or past all it has seen, the view is exactly that of the table at n |
| `Handshake.ListIsExact` | packages/drizzle-pulse/src/client/embedded/index.ts:71-73 | So list() is at any such moment exactly the ordered, filtered, projected table at n |
| `Handshake.CollectionMeetsSelect` | packages/drizzle-pulse/src/client/embedded/index.ts:200-251 | With everything delivered the collection is what a fresh SELECT would give |
| `Handshake.FragmentFiltersAgree` | packages/drizzle-pulse/src/shared/filter-ast.ts:224-244 | When the in-memory filter and the baseline SQL agree, as convergence needs |
| `Events.StoredReadsBack` | packages/drizzle-pulse/src/server/pulse-store.ts:135-161 | A stored event row read back gives both sides of the event, for every op |
| `Events.PulledEventIsScoped` | packages/drizzle-pulse/src/server/sdk.ts:646-708 | Persisting, reading back and filtering in SQL gives the scoped event, save an insert outside a limited window |
| `Events.PullRefreshes` | packages/drizzle-pulse/src/server/sdk.ts:646-708 | For an unlimited query the whole durable path refreshes any view by the event |
| `Events.TwoPathsAgree` | packages/drizzle-pulse/src/server/pulse-store.ts:143-161 | Persist, read back and pull changes the rows, $pk aside, exactly as the tap does |
| `Pull.ComputeUpdatedRange` | packages/drizzle-pulse/src/server/sdk.ts:455-477 | The loop computes the widened window |
| `Pull.WidenedIsTightest` | packages/drizzle-pulse/src/server/sdk.ts:455-477 | The widened window is the tightest one around the old window and the inserted pks |
| `Pull.BuildIncrementalResponse` | packages/drizzle-pulse/src/server/sdk.ts:541-717 | With the newest snapshot read first and the rows later, from a table grown since, the answer is the specification's for the table at one moment: nothing new, a reset for cap or marker, or the events with cursor and window |
| `Pull.NormalizeEvents` | packages/drizzle-pulse/src/server/sdk.ts:646-708 | Its event loop: the wire events of the picked rows in order and the newest snapshot |
| `Pull.CursorIsComplete` | packages/drizzle-pulse/src/server/sdk.ts:550-716 | An incremental answer never moves the cursor back, carries every picked row in (since, next] once in order and leaves none behind; an answer that would not is a reset |
| `Pull.ResetIsQuiet` | packages/drizzle-pulse/src/server/sdk.ts:349-361 | The token a reset returns answers nothing until, and only until, something the query can see is logged |
| `PullHandler.PullBatch` | packages/drizzle-pulse/src/server/sdk.ts:268-342 | A missing list is a bad request; a throw for any item fails the batch; otherwise every key is answered from its own item alone (events, or the rows, span and token of a reset, or a failed resolution), items without a usable key are passed over, nothing else is answered |
| `PullHandler.TokenIsHonouredInItsEpoch` | packages/drizzle-pulse/src/server/sdk.ts:316-329 | A minted token is answered from its snapshot in its own epoch and by a reset in any other, before snapshots are compared |
| `PullHandler.RepollIsQuietIff` | packages/drizzle-pulse/src/server/sdk.ts:316-341 | Replies chain: the token of any reply, delta or reset, sent back in its epoch, is answered with nothing and itself until and only until an event row the query can see is logged past the snapshot of that reply |
| `PulseQuery.RangeOf` | packages/drizzle-pulse/src/server/sdk.ts:514-526 | The range loop of reset and load-more computes the span of the page |
| `PulseQuery.SpreadIsEnds` | packages/drizzle-pulse/src/server/sdk.ts:136-145 | On a sorted page that span is its two ends, as subscribe reports it |
| `PulseQuery.LoadMoreHandler` | packages/drizzle-pulse/src/server/sdk.ts:181-261 | A missing or invalid cursor is a bad request; otherwise the page behind the cursor, the joined window and hasMore, as specified |
| `PulseQuery.AfterIsSuffix` | packages/drizzle-pulse/src/server/sdk.ts:198-221 | What lies beyond the k-th row of a sorted listing is the rest of it |
| `PulseQuery.PaginationIsComplete` | packages/drizzle-pulse/src/server/sdk.ts:126-145 | On an unchanging table subscribe and k load-mores show exactly the first (k+1)*limit rows in order, and hasMore says whether rows remain |
| `PulseQuery.PulseQuery.ApplySubscribe` | packages/drizzle-pulse/src/client/pulse-query.ts:74-105 | A subscribe answer becomes state, window and token, or is dropped whole after destroy |
| `PulseQuery.PulseQuery.ApplyPullResult` | packages/drizzle-pulse/src/client/pulse-query.ts:185-222 | An error leaves rows, window and token alone, a reset replaces them, a delta folds its events under the old window and adopts the new; rows, hasMore and error shown after each |
| `PulseQuery.PulseQuery.LoadMoreCursor` | packages/drizzle-pulse/src/client/pulse-query.ts:127-139 | The cursor is the last pk shown, or the trailing end of the window |
| `PulseQuery.PulseQuery.ApplyLoadMore` | packages/drizzle-pulse/src/client/pulse-query.ts:154-162 | Any page is appended minus what is held; one that continues the order keeps the core sorted; after destroy nothing changes |
| `PulseQuery.PulseQuery.LoadEverything` | packages/drizzle-pulse/src/client/pulse-query.ts:122-169 | Loading until the server says that is all terminates with exactly the whole listing |
| `Paging.LoadMoreSkips` | packages/drizzle-pulse/src/client/pulse-query.ts:127-139 | A load-more skips exactly the matching rows before the furthest row shown that are not shown themselves |
| `Paging.LoadedWindow` | packages/drizzle-pulse/src/server/sdk.ts:237-252 | A load-more keeps the window proper and takes each bound from the old window or the page |
| `Paging.TrailingStays` | packages/drizzle-pulse/src/server/sdk.ts:455-477 | Inserts ahead of the leading edge move that edge alone |
| `Limited.LaterComesBefore` | packages/drizzle-pulse/src/shared/pk-utils.ts:29-38 | Under the monotonic-pk invariant a row not seen by m comes before every row seen by then |
| `Limited.TurnedAway` | packages/drizzle-pulse/src/shared/ranged-merge-core.ts:67-74 | The gate only turns away an insert that lies behind the last baseline and whose row is shown, left out, or gone by then |
| `Limited.ConsumeAllAgrees` | packages/drizzle-pulse/src/shared/ranged-merge-core.ts:67-74 | Consuming the log in order through the gate keeps every client in agreement with the history, whatever part of the view it started from |
| `Limited.LoadedAdmits` | packages/drizzle-pulse/src/shared/ranged-merge-core.ts:36-49 | Rows loaded behind a cursor the gate has seen do not make it turn away a row it should let in |
| `HttpPull.PullConsumes` | packages/drizzle-pulse/src/server/sdk.ts:550-716 | An answered pull moves the client over everything logged, through its gate |
| `HttpPull.PullMovesWindow` | packages/drizzle-pulse/src/server/sdk.ts:455-477 | and leaves its trailing edge where it was |
| `HttpSync.ClientConverges` | packages/drizzle-pulse/src/server/sdk.ts:120-134 | In every run of commits, ingestion, seeding, rotation, subscribe, pulls, resets and load-mores: once pulls have consumed the log up to n, every row shown is the row at n, and the rows missing are exactly those the last baseline left out and no event has brought up since |
| `HttpSync.ResetIsWholeIff` | packages/drizzle-pulse/src/server/sdk.ts:479-512 | After a reset of an unlimited query and any pulls: a matching row is missing at n iff at the reset it lay past the trailing end of the client's window and no event has addressed it since; the view is whole iff there is no such row |
| `HttpSync.SubscribeIsWhole` | packages/drizzle-pulse/src/server/sdk.ts:120-134 | After a subscribe of an unlimited query and any pulls the client is the view at n |
| `HttpSync.CaughtUpLoadMoreSkips` | packages/drizzle-pulse/src/client/pulse-query.ts:127-139 | A caught-up client's load-more skips exactly the left-out rows before its cursor: none while no row shown lies past the edge of what it has read |
| `HttpRuns.CapResetLosesRow` | packages/drizzle-pulse/src/server/sdk.ts:479-560 | A run, for every cap: row 1 is shown, row 2 arrives with more events than the cap behind it, the cap-reset and the pull after it leave the client caught up without row 2 |
| `HttpRuns.LoadMoreSkipsRow` | packages/drizzle-pulse/src/client/pulse-query.ts:127-139 | A run: pages of one row, a write to row 3 brings it in, and the next load-more passes over row 2 for good |
| `HttpSync.WindowIsExact` | packages/drizzle-pulse/src/shared/pk-utils.ts:29-59 | For a limited query the client holds exactly the current view up to its trailing edge, and past it only current rows |
| `HttpSync.BaselineLeavesOut` | packages/drizzle-pulse/src/server/sdk.ts:479-512 | What a baseline leaves out: a subscribe what the limit cuts, a reset what its window excludes |
| `HttpSync.StaleTokenStaysStale` | packages/drizzle-pulse/src/server/sdk.ts:316-323 | A token minted before a rotation never validates again in any continuation without a new subscribe or reset |
| `HttpSync.MixedTokenAnswers` | packages/drizzle-pulse/src/server/sdk.ts:541-717 | A token of the new epoch with a snapshot from before the rotation is answered with a reset iff the new log has its marker or more rows than the cap, otherwise with the events from the start of the new log |
| `HttpClient.BaselineIsRepresented` | packages/drizzle-pulse/src/client/pulse-query.ts:84-91 | A core rebuilt from the rows of a baseline holds the view the machine gives the client |
| `HttpClient.LoadMoreIsRepresented` | packages/drizzle-pulse/src/client/pulse-query.ts:122-162 | A load-more page is new to the core as a whole, continues its order, and takes its view where the machine takes the client's |
| `Runtime.DecodingFansOut` | packages/drizzle-pulse/src/server/pulse-runtime.ts:1002-1006 | Fanning a transaction out over the tables keeps each table's decoded stream, in order |
| `Runtime.PulseStore.IngestCommit` | packages/drizzle-pulse/src/server/pulse-store.ts:69-84 | One transaction appends each event to its table and advances the watermark |
| `Runtime.PulseStore.CreateBaselineSnapshot` | packages/drizzle-pulse/src/server/pulse-store.ts:86-113 | Only an empty table is seeded, only from an existing row |
| `Runtime.PulseRuntime.ApplyTransaction` | packages/drizzle-pulse/src/server/pulse-runtime.ts:979-1015 | A commit is persisted, remembered, then emitted; a replayed one does none of the three |
| `Runtime.PulseRuntime.RotateAndSeedEvents` | packages/drizzle-pulse/src/server/pulse-runtime.ts:871-934 | Every registered table is truncated, reseeded and given a fresh epoch, and the watermark set, once for two queries on one table |
| `Runtime.PulseRuntime.OnResume` | packages/drizzle-pulse/src/server/pulse-runtime.ts:817-834 | Resumes exactly when the watermark is at or past the confirmed flush, and then seeds and rebaselines |
| `Runtime.PulseRuntime.Backfill` | packages/drizzle-pulse/src/server/pulse-runtime.ts:795-814 | Rotates if durable, then rebaselines collections if a stream had run before |
| `DurableLog.LogIsExactlyOnce` | packages/drizzle-pulse/src/server/pulse-runtime.ts:979-1015 | In every run of deliver, persist, crash or reject before ack, replay, boot, resume and recreate each table's log is exactly the decoded commits between its base and the watermark, once each in LSN order |
| `DurableLog.LogIsStretchOfHistory` | packages/drizzle-pulse/src/server/pulse-store.ts:69-84 | The same log as the pull protocol sees it: the stretch of the table's decoded history from its base to the watermark |
| `DurableLog.CaughtUpIsComplete` | packages/drizzle-pulse/src/server/pulse-runtime.ts:817-834 | No commit is skipped: a stream that has delivered everything has persisted everything |
| `DurableLog.EpochsAreDurable` | packages/drizzle-pulse/src/server/pulse-runtime.ts:927-933 | While booted, the epochs tokens are minted with are the durable ones |
| `DurableLog.SessionEmits` | packages/drizzle-pulse/src/server/pulse-runtime.ts:997-1012 | Between two openings of the stream the runtime emits, for every table, exactly the decoded commits from the first one above the watermark to the last one persisted: nothing twice, nothing left out |
| `DurableLog.SessionIsTapStretch` | packages/drizzle-pulse/src/server/pulse-runtime.ts:997-1012 | In the terms of the collections: a session is one restart of the tap at a position of the table's history and the delivery of every event from there on |
| `DurableLog.ResumeIsSafeIff` | packages/drizzle-pulse/src/server/pulse-runtime.ts:817-834 | No continuation of the stream can pass over a commit the tables lack iff no commit lies above the watermark and below the confirmed flush; whenever the check resumes this holds |
| `DurableLog.OrdinaryAckRecreates` | packages/drizzle-pulse/src/server/pulse-runtime.ts:824-827 | The check is conservative: a run from the initial state in which a commit is persisted and acknowledged the ordinary way, resuming would be safe, and the verdict is to recreate |
| `DurableLog.SkippedCommitIsLost` | packages/drizzle-pulse/src/server/pulse-runtime.ts:818-827 | and it is needed: a run from the initial state in which resuming would pass over a commit no table holds |
| `Bootstrap.PulseRuntime.Bootstrap` | packages/drizzle-pulse/src/server/pulse-runtime.ts:545-771 | Provisioning fails exactly when the WAL level or a grant is missing, then changes nothing; otherwise it brings about the whole specified state |
| `Bootstrap.PulseRuntime.ForceFullIdentity` | packages/drizzle-pulse/src/server/pulse-runtime.ts:602-618 | REPLICA IDENTITY FULL on every source or failure |
| `Bootstrap.PulseRuntime.Publish` | packages/drizzle-pulse/src/server/pulse-runtime.ts:620-674 | The publication is created, left alone, or its members diffed |
| `Bootstrap.PulseRuntime.RebuildDiverged` | packages/drizzle-pulse/src/server/pulse-runtime.ts:704-743 | Tables in line keep rows and epoch; all others are rebuilt empty under fresh epochs |
| `Bootstrap.PulseRuntime.DropOrphans` | packages/drizzle-pulse/src/server/pulse-runtime.ts:748-752 | Exactly the recorded tables without a source go |
| `Bootstrap.SecondRunChangesNothing` | packages/drizzle-pulse/src/server/pulse-runtime.ts:545-771 | Fixpoint: a second run changes nothing, epochs included |
| `Bootstrap.SecondRunNeedsNoGrant` | packages/drizzle-pulse/src/server/pulse-runtime.ts:591-674 | and needs no grant at all |
| `Bootstrap.SourcesAreReplicated` | packages/drizzle-pulse/src/server/pulse-runtime.ts:591-674 | On success every source is FULL, a non-ALL-TABLES publication holds exactly the sources, dropped members are back to DEFAULT, other tables untouched |
| `Names.NamesCollideIff` | packages/drizzle-pulse/src/server/events-table-resolver.ts:27-38 | Two sources derive the same events name exactly when one is the other with underscores moved across the joint |
| `Names.CleanNamesAreDistinct` | packages/drizzle-pulse/src/server/events-table-resolver.ts:27-38 | With no underscore at the joint the name determines schema and table |
| `Names.QualifiedCollideIff` | packages/drizzle-pulse/src/shared/qualified-table-name.ts:5-7 | Qualified names agree exactly for the same pair or when one dotted path is split at different dots |
| `Names.RegisterSources` | packages/drizzle-pulse/src/server/pulse-runtime.ts:241-277 | The loop fails exactly when two registered sources collide; otherwise distinct sources have distinct events names |
| `Cursor.CursorRoundTrips` | packages/drizzle-pulse/src/server/cursor.ts:5-20 | Parsing a formatted cursor gives it back exactly for non-empty colon-free epochs and safe integers |
| `Cursor.FormatIsInjective` | packages/drizzle-pulse/src/server/cursor.ts:5-7 | Formatting is injective there |
| `Cursor.ParsedIsFormatted` | packages/drizzle-pulse/src/server/cursor.ts:9-20 | A token that parses is the formatted cursor up to leading zeros |

## Left out

- Postgres, drizzle and the replication driver: a SELECT is filter, order and limit over a map, a database transaction one step, the driver an actor that delivers every commit past its position at least once.
- Order of text: strings compare by code unit as in JavaScript; a collation that orders differently in ORDER BY is not part of this model.
- Numbers: finite; `Number(text)` and the number a text denotes exactly are parameters of the filter model, so the evaluator's rounding is in it; what a driver rounds when it decodes a column is not, and neither are NaN and infinity.
- User transforms, which may rewrite `$pk`; the embedded client refuses them and the convergence theorems are about queries without one.
- Grants for the events schema itself: only the statements that bootstrap wraps for a missing grant can fail, the CREATE, DROP and INSERT statements in the events schema are taken to succeed.
- Identifier byte limits and reserved column names: the throws of server/events-table-resolver.ts are not modelled; `NoReservedColumns` is what they ensure.
- LSN text, SHA-256, UUIDs, DDL text, quoting: naturals, injective values, a supply of fresh ones.
- Telemetry, logging, listener isolation, timeouts, backoff, the React hook, routing and transport, builders and schemas: no state that the theorems are about.
- Liveness: that a reconnect succeeds, that a handshake ends, that a client polls.
- Interleavings of a load-more response with a pull in flight: the older response overwrites the newer window.
- Fallible handlers: queries that do not resolve and server errors in subscribe and load-more; in a pull they are modelled.
- Sharing: rows are values, and an entry is found by value where the code finds it by reference; entries of one core have distinct comparable pks, so both find the same one.
- CreateBaselineSnapshot: the throw for a baseline row without its pk column is not modelled; full rows have it.
- StaleTokenStaysStale: takes a pull as one step, so a rotation between its epoch check and its token, which would pair the new epoch with an old snapshot, is not among the runs; how such a token is answered is `MixedTokenAnswers`.
- RegisterSources: takes the tables of the registered queries in order and does not model the lookup of queries in the registry.
- PullBatch: takes what the SELECT of a reset returns as given for each window; those rows themselves are in HttpMachine. The error replies for a source or events table that is not registered are left out, since a served query has both.
