# Verified models of the knowledge engine's hard cores

Dafny models of six parts of the Go code base, with proofs of what each is for:

- **List queries** (`go/foundation/listquery`): the filter fold, the keyset order and seek predicate, the page token, one
  paginated read, and whole chains of reads. Main results: `PagingChain.NoDupNoSkip` (a chain over a table that is being
  inserted into and deleted from delivers every row that was there throughout exactly once, in ascending order) and
  `FixedTable.FollowingCursorsReadsTheTable` (over a table that does not change, the pages are the filtered, sorted table).
- **Analytics store** (`go/clients/analytics/cassandra` and the grains and partials of `go/foundation/vizql`): the
  calendar, mergeable summaries, idempotent writes, pushdown and bucket enumeration, compaction under every interleaving,
  reads page by page while it goes on, batches that take effect late, and the prefetching stream. Main results:
  `EndToEnd.QueryDuringCompaction` and `EndToEnd.ResumedStreamAnswers` (what a client merges is the brute-force answer
  over the facts its page fetches count, and over all facts exactly when those they miss have nothing the query asks for),
  `Numbers.ResumedStreamNumbers` (the same from a log of writes to finalized numbers), `LateBatches.LandingsKeepIff` (which
  facts late, repeated and reordered batches lose) and `Answers.AnswersIffCoarse` (queries are answered exactly when bucket
  widths are coarse enough).
- **Lease lock** (`go/clients/lock`): both backends, the refinement between them, and `Hold` with any number of clients, a
  server, a clock, tickers and requests in flight. Main results: `LockRuns.TtlSafeIffWholeMillis`,
  `LockTiming.MissedTicksIff` (two missed ticks leave the key exactly when the wait for the acquire's answer and two
  intervals fit in the lease) and `LockTiming.LossIsNoticed`.
- **Visual algebra** (`go/foundation/vizql`): normal form, validation, compilation and drill-down. Main results:
  `Vizql.ValidSpecCompiles`, `Drill.NormalizeDrilled`, `Drill.DrilledCompiles` and `Drill.DrilledStaysValid`.
- **Outbox relay** (`go/services/outbox`): one run over a claim, and rows across runs. Main results:
  `Outbox.OrderIsImmaterial` and `Outbox.RetriesAreBounded`.
- **Fan-out engine** (`go/execution/engine`): bounded concurrent items of several jobs reporting to one observer. Main
  results: `FanOut.EachStepOnce`, `FanOutRuns.HeardIsReturnedIff`, `FanOut.SomeStepIsEnabled` and
  `FanOutRuns.RunsAreFinite`.

Protocols are transition systems: `Next` is a disjunction of steps, `IsRun` a sequence of states linked by it, `Inv` an
invariant every step keeps, and the results hold at every state of every run. Objects the source updates in place are
classes; loops are methods proved against a specification function whose properties are lemmas.

`dafny verify dfyconfig.toml` checks the project.

## How things are represented

- Times are integer nanoseconds since 0001-01-01T00:00:00Z; a page cursor counts its microseconds from 1970; durations are integer nanoseconds; measures are reals and a
  quantile sketch is the multiset of what was added to it.
- A datastore behind a list query is a pair of functions constrained by `Paging.Serves`: filter, sort by the order given,
  window, and a count that stops at its bound. Values are strictly totally ordered by the store. The source demands NOT
  NULL sort columns and unique ids; so do `Keyset.Seekable` and `Keyset.UniqueIds`.
- JSON, base64 and hashing are taken as lossless, except that a JSON number comes back as the nearest float64. A
  fingerprint is an arbitrary function of sort and filter. Dimension maps stand for their canonical rendering.
- Redis `SET PX` grants whole milliseconds, at least one; `PEXPIRE` grants whole milliseconds, and with 0 deletes the key
  and still answers 1. Lock tokens are distinct.
- One compactor works on a bucket at a time. A scan sees every row that was there when it began and any of those written
  meanwhile. A batch is atomic. A query reads a bucket in pages by clustering key, each page at its own moment; a group's
  compacted row is the first of its group.
- A map's iteration order, a goroutine schedule, the clock, the network and the work given to a fan-out are arbitrary.

## Where the code and its documentation differ

- `backoff` is documented as min(base·2^attempts, max). With an odd max it returns max where the power is max − 1
  (`Outbox.Backoff`, `Outbox.BackoffOvershoots`).
- The lock's TTL is documented as how long a holder may rely on the key. It may only for the whole milliseconds of it, and
  a renewal below one millisecond reports success and deletes the key (`LockRuns.TtlSafeIffWholeMillis`,
  `LockBackends.RenewalLeavesKeyHeld`).
- A grain's bucket width is documented as a coarser grain. It is not checked to be; with a finer one a query does not find
  facts that were written (`Answers.AnswersIffCoarse`).
- A half-done compaction is documented never to change an answer. Nothing holds the pages of a read together: a fact folded
  into its group's compacted row after a read has passed that row, and before it has reached the fact, is not counted
  (`EndToEnd.LosingQuery`, `PagedReads.MissedIff`). And a batch that first takes effect after its call failed and a rerun
  folded more overwrites what the rerun folded (`LateBatches.LateLoss`, `LateBatches.OneLateBatch`).
- `RunJobGroup` is documented to forward each job's results. A job that fails after a fan-out returns one failing step, and
  the observer is never told of it (`FanOutRuns.UnheardFailure`, `FanOutRuns.ErrorAfterFanOut`,
  `FanOutRuns.HeardIsReturnedIff`).
- A couple of missed renewals are documented not to expire a live lease. The lease runs from when the server took the
  acquire, the ticker from when its answer came, so they do not exactly when that wait and two intervals are less than the
  whole milliseconds of the TTL (`LockTiming.MissedTicksIff`). Accepted intervals of a millisecond or more allow it after an
  acquire answered at once; no accepted configuration allows it after every acquire (`LockTiming.AcceptedIntervals`).
- The held context is documented to be cancelled the instant the lease is lost. It is cancelled when the answer to a
  renewal says so: a holder goes on without the key (`LockTiming.LossGoesUnnoticed`), for at most an interval, the delay in
  taking a tick and that of the answer (`LockTiming.LossIsNoticed`).
- `ResolveFilter` promises that resolving first and compiling later gives the same query. A clause whose column resolves to
  the empty name becomes one that matches every row (`Filters.BlankColumnMatchesAll`, `Filters.BlankColumnWitness`).
- `KeysetColumns` is documented as fully deterministic. A sort field that orders the id column by a list of values leaves
  ids off the list tied, since the plain id is then dropped as a repeat (`Keyset.TotalIffIdPlain`).
- A cursor timestamp travels as microseconds in a JSON number. It survives when it is whole microseconds that float64 holds
  (`Paging.TimestampRoundTrip`): every whole microsecond within 285 years of 1970, not every one after
  (`Paging.TimesAround1970`, `Paging.TimePast2255`).
- `childOf` is documented to use the first hierarchy containing the field. A field that ends one hierarchy is still looked
  for in the next (`Drill.DocumentedIff`, `Drill.DocumentedChildDiffers`).
- `Drill` is documented to replace the field where it is used as a dimension. Sort keys are replaced by name alone, so a
  sort by a key that only looks like the field can stop the drilled spec from compiling (`Drill.DrilledCompiles`,
  `Drill.DrilledSortIsLost`).

## Model

| member | source | states |
|---|---|---|
| `Filters.CompilePreservesMeaning` | go/foundation/listquery/compile.go:118-157 | For every backend whose five operations mean what they say, the predicate compiled from a resolved filter selects exactly the rows the filter denotes; the AND arm wins when both are set and an empty filter matches all |
| `Filters.ResolvePreservesMeaning` | go/foundation/listquery/compile.go:57-90 | When no taking-part clause resolves to the empty name, the resolved filter selects exactly the rows the caller's field names stood for, joins included |
| `Filters.ResolveThenCompile` | go/foundation/listquery/compile.go:48-81 | Resolving up front and compiling with the identity resolver asks every backend for the same predicate as compiling with the resolver |
| `Filters.BlankColumnMatchesAll` | go/foundation/listquery/compile.go:57-81 | The two routes agree if and only if no clause that takes part resolves to the empty name |
| `Filters.BlankColumnWitness` | go/foundation/listquery/compile.go:57-81 | One clause whose column resolves to the empty name: compiled directly a comparison, resolved first every row |
| `Keyset.BuildKeysetColumns` | go/foundation/listquery/compile.go:196-267 | The loop with its `seen` set yields the first occurrence of each candidate: sort fields, tiebreaker, id |
| `Keyset.ColumnsDoNotRepeat` | go/foundation/listquery/compile.go:196-267 | No base column is ordered by twice, whatever the caller sorts by |
| `Keyset.ColumnsEndTheOrder` | go/foundation/listquery/compile.go:253-266 | The tiebreaker and the id are always among the columns |
| `Keyset.SortFieldIsKept` | go/foundation/listquery/compile.go:208-251 | The first sort field to name a column is ordered by, in the caller's direction |
| `Keyset.DefaultColumns` | go/foundation/listquery/compile.go:196-267 | With no sort the order is tiebreaker descending, id descending, the id once when it is the tiebreaker |
| `Keyset.OrderIsTotal` | go/foundation/listquery/compile.go:187-195 | With the plain id among the columns the lexicographic order is strict and total on every table with unique ids |
| `Keyset.KeysetColumnsTotal` | go/foundation/listquery/compile.go:187-267 | The columns give a total order whatever joins, derived sorts and ordinals the caller uses, unless the id itself is ordered by a list of values |
| `Keyset.TotalIffIdPlain` | go/foundation/listquery/compile.go:187-267 | When joined and derived keys tell no rows apart, the order is total on every table with unique ids if and only if the first sort field on the id, if any, is not by a list of values |
| `Keyset.AfterRowIsBefore` | go/foundation/listquery/seek.go:8-24 | A cursor made of a row's keys stands exactly at that row in the order |
| `Keyset.SeekIsStrictlyAfter` | go/foundation/listquery/seek.go:25-59 | The nested seek filter selects a row if and only if it comes strictly after the cursor in the ORDER BY order, mixed directions included |
| `Keyset.NullColumnIsSkipped` | go/foundation/listquery/seek.go:22-24 | A row whose leading sort column is NULL is selected by no seek |
| `Tokens.Float64IsExact` | go/foundation/listquery/run.go:477-494 | An integer comes back unchanged from round-to-nearest-even if and only if it is a multiple of the float64 spacing at its size |
| `Tokens.SmallIntegersAreExact` | go/foundation/listquery/run.go:477-494 | Integers up to 2^53 in magnitude survive a JSON number; 2^53 + 1 does not |
| `Tokens.OffsetTokenRoundTrip` | go/foundation/listquery/token.go:45-89 | An offset page number survives conversion, encoding and decoding if and only if it fits int32 |
| `Paging.PageLimit` | go/foundation/listquery/run.go:172-184 | The limit is positive, at most the maximum when there is one, and the size asked for whenever that is allowed |
| `Paging.MintCursor` | go/foundation/listquery/run.go:371-409 | The loop mints the cursor column by column, timestamps as whole microseconds from 1970, with the first error it meets |
| `Paging.RestoreCursor` | go/foundation/listquery/run.go:326-364 | The loop with its index restores each value in column order, timestamps from microseconds since 1970, and rejects too few, too many and ill-typed values |
| `Paging.TimestampRoundTrip` | go/foundation/listquery/run.go:395-494 | A timestamp survives mint, JSON and restore if and only if it is whole microseconds and float64 holds their number since 1970 |
| `Paging.TimesAround1970` | go/foundation/listquery/run.go:395-494 | Every whole-microsecond time within 2^53 microseconds of 1970 survives the cursor |
| `Paging.TimePast2255` | go/foundation/listquery/run.go:395-494 | The microsecond after those does not |
| `Paging.EpochIs1970` | go/foundation/listquery/run.go:477-494 | The instant cursors count from is midnight of 1970-01-01 in the calendar the grains use |
| `Paging.ValuesRoundTrip` | go/foundation/listquery/run.go:326-409 | Minting, encoding, decoding and restoring gives back exactly the row's sort keys |
| `Paging.MintedId` | go/foundation/listquery/run.go:371-409 | The id slot is filled from the id column wherever it stands among the columns, and only then |
| `Paging.CursorRoundTrip` | go/foundation/listquery/run.go:326-409 | The token minted from a row decodes to a cursor with the same fingerprint whose restored values are that row's keys |
| `PagingChain.SeekRows` | go/foundation/listquery/run.go:269-320 | User filter and seek together select exactly the matching rows after the cursor's row |
| `PagingChain.KeysetStep` | go/foundation/listquery/run.go:269-320 | A keyset request returns the first rows after its cursor and a token, standing at the last row returned, exactly when more follow |
| `PagingChain.OffsetStep` | go/foundation/listquery/run.go:190-242 | An offset request in the default order returns its window and bridges to the keyset arm with a token at its last row |
| `PagingChain.ChainProgress` | go/foundation/listquery/run.go:122-157 | After any prefix of a chain the rows delivered ascend strictly and cover every row present throughout up to the cursor |
| `PagingChain.NoDupNoSkip` | go/foundation/listquery/run.go:116-157 | Over tables that change between requests and with any page sizes, a completed chain in the default order delivers rows in strictly ascending order and each row present throughout exactly once |
| `PagingChain.DeliveredRowsMatch` | go/foundation/listquery/run.go:122-157 | Every delivered row was a matching row of the table its page was read from |
| `FixedTable.KeysetContinues` | go/foundation/listquery/run.go:269-320 | The keyset arm serves the next window of the sorted table from where its token stands |
| `FixedTable.OffsetContinues` | go/foundation/listquery/run.go:190-242 | The offset arm serves its window under any sort, and its token continues where the window ends |
| `FixedTable.PageCount` | go/foundation/listquery/run.go:190-242 | The number of pages is max(1, ceil(rows / limit)) |
| `FixedTable.FollowingCursorsReadsTheTable` | go/foundation/listquery/run.go:411-433 | From the first page or any offset page, following the next cursor ends after exactly that many pages whose concatenation is the filtered, sorted table from there on |
| `FixedTable.BoundedTotalIsExact` | go/foundation/listquery/run.go:249-263 | The total is the number of matching rows up to the cap, and flagged as an estimate exactly beyond it |
| `StringOrder.SortLists` | go/foundation/listquery/suggest.go:72 | Sorting distinct strings lists their set in strictly ascending order |
| `Suggest.SuggestPageNumber` | go/foundation/listquery/suggest.go:18-26 | Any token, malformed ones included, reads as a page number of at least 1 |
| `Suggest.MergeDistinct` | go/foundation/listquery/suggest.go:57-83 | The merge loop returns the page of the sorted union of the columns' values, each once, with a next page exactly when values remain |
| `Suggest.CappedColumnsSuffice` | go/foundation/listquery/suggest.go:50-56 | Columns capped at their first offset + limit + 1 sorted matches give the same page and the same has-more as merging every match |
| `Suggest.FollowedIsAll` | go/foundation/listquery/suggest.go:33-48 | The pages followed from any page on concatenate to the rest of the sorted list |
| `Suggest.CappedPagesReadAll` | go/foundation/listquery/suggest.go:50-83 | Following page numbers, each page merged from columns capped for that page alone, gives every distinct match of every column exactly once, in order |
| `Calendar.YearLength` | go/foundation/vizql/codec.go:61-75 | The year starts used are 365 or 366 days apart, as the Gregorian leap rule says |
| `Calendar.DateOf` | go/foundation/vizql/codec.go:61-75 | Every day number has a date inside its month and year that maps back to it |
| `Calendar.MonthOfDay` | go/foundation/vizql/codec.go:61-75 | A day between two firsts belongs to that month and no other |
| `Calendar.TruncateBounds` | go/foundation/vizql/codec.go:57-92 | A time lies in the period its truncation starts, for every grain and every time |
| `Calendar.TruncateIsAligned` | go/foundation/vizql/codec.go:57-75 | Truncating twice is truncating once, unknown grains included |
| `Calendar.TruncateIsTheStart` | go/foundation/vizql/codec.go:61-92 | Periods do not overlap: the aligned start whose period holds a time is its truncation |
| `Calendar.TruncateMonotone` | go/foundation/vizql/codec.go:61-75 | Later times have later or equal starts |
| `Calendar.NextIsAligned` | go/foundation/vizql/codec.go:77-92 | From an aligned start the next period starts later and is aligned, across months and leap years |
| `Calendar.TruncateNests` | go/foundation/vizql/codec.go:61-75 | Truncating to a finer grain first leaves the coarser period unchanged |
| `Partials.MergeDescribes` | go/foundation/vizql/reduce.go:57-99 | The merge of two summaries summarizes exactly the observations of both: count, sum, extremes, sketch |
| `Partials.MergeLaws` | go/foundation/vizql/reduce.go:57-79 | Merging is commutative and associative with the empty summary as unit |
| `Partials.FinalizeAggregates` | go/foundation/vizql/reduce.go:101-144 | Finalizing a summary gives the sum, count, mean, least, greatest and p50, p95 and p99 of its observations, and NaN where there are none |
| `Partials.FoldRemove` | go/foundation/vizql/reduce.go:16-19 | Any row may be merged last, so a fold of rows does not depend on order |
| `Partials.MergePartials` | go/clients/analytics/cassandra/compact.go:199-229 | The name-by-name loop is the first-to-last merge of the base and every row |
| `Partials.MergeAllIsFold` | go/clients/analytics/cassandra/compact.go:199-229 | Merging a list of distinct rows into a base is merging their order-free fold |
| `Compaction.ReadPartition` | go/clients/analytics/cassandra/compact.go:99-149 | The indexed scan groups the partition: each group once, with its compacted row and exactly its per-fact rows |
| `Compaction.BatchPreserves` | go/clients/analytics/cassandra/compact.go:153-196 | One batch (upsert the merged row, delete what it absorbed) changes the merged total of no group |
| `Compaction.Partition.CompactGroup` | go/clients/analytics/cassandra/compact.go:153-196 | Chunk by chunk, every group's total stays, other groups' rows stay, the group is left with only its compacted row, and a group without per-fact rows gets no batch |
| `Compaction.Partition.Compact` | go/clients/analytics/cassandra/compact.go:83-95 | Every answer is as before, only compacted rows remain, and no batch is sent exactly when the partition was compact already |
| `CompactionRuns.NextKeeps` | go/clients/analytics/cassandra/compact.go:33-43 | Every write, read, batch, retried batch, group change and crash keeps: per-fact rows are the facts not absorbed, each compacted row is the fold of those that were |
| `CompactionRuns.RetryIsIdle` | go/clients/analytics/cassandra/compact.go:33-43 | Applying the last batch of a group again changes nothing, however much later: after other groups, a stop or a fresh start |
| `CompactionRuns.CompactionPreservesAnswers` | go/clients/analytics/cassandra/compact.go:33-43 | At every moment of every interleaving of writers, a compactor, crashes and retries, each group's rows merge to the summary of the distinct facts written |
| `CompactionRuns.LateRedelivery` | go/clients/analytics/cassandra/compact.go:37-39 | A fact written again after it was absorbed is counted twice, so the answer survives if and only if the fact carries no observation |
| `LateBatches.BatchContent` | go/clients/analytics/cassandra/compact.go:174-196 | The row a batch upserts is the fold of the facts absorbed by then and of those it deletes |
| `LateBatches.LandingsKeepIff` | go/clients/analytics/cassandra/compact.go:179-194 | When batches due at any moments of a run take effect late, in any number and order, each upsert newest or not, a group lacks exactly the facts with neither their own row nor a part in the last winning upsert, and its answer is right if and only if none of those has a measure |
| `LateBatches.OneLateBatch` | go/clients/analytics/cassandra/compact.go:179-194 | One batch that takes effect after its call failed, whatever was done since, keeps every answer if and only if nothing with a measure was absorbed since that it does not fold (its upsert the newest), or it deletes nothing with a measure that nobody absorbed (its upsert not) |
| `LateBatches.LandedGoesOn` | go/clients/analytics/cassandra/compact.go:33-43 | When nothing is lost, the rows are those of a compactor that stopped having absorbed all that is gone, so every run from there keeps the answers |
| `LateBatches.LateLoss` | go/clients/analytics/cassandra/compact.go:33-43 | A run with a batch that fails, a stop, a write and a rerun: the late batch loses the second fact if its upsert wins and nothing if it does not |
| `PagedReads.TableOrder` | go/clients/analytics/cassandra/store.go:141-146 | The table's primary key orders rows strictly and totally with a group's compacted row before its per-fact rows |
| `PagedReads.SeenAt` | go/clients/analytics/cassandra/stream.go:102-121 | However a bucket is cut into pages, a row is seen once, exactly as it was when the page covering its key was fetched |
| `PagedReads.ReadCounts` | go/clients/analytics/cassandra/stream.go:102-121 | Whatever is written and compacted between page fetches, each group's rows as seen merge to the summary of exactly the facts counted: none twice |
| `PagedReads.MissedIff` | go/clients/analytics/cassandra/compact.go:33-43 | A fact is missed if and only if it was written after its page was fetched, or a batch folded it between the fetch of its group's compacted row and that of its own page |
| `PagedReads.QuietIsCounted` | go/clients/analytics/cassandra/compact.go:33-43 | A fact there in time is counted when its group is on one page or gets no batch between the pages that split it |
| `PagedReads.LosingRun` | go/clients/analytics/cassandra/compact.go:33-43 | For every clustering order, two facts written and folded in one batch between the two page fetches of a read: the read sees one of them, and the group's total is wrong |
| `Residual.ResidualIsExact` | go/clients/analytics/cassandra/residual.go:39-88 | The compiled in-process predicate accepts a stored row exactly when the filter holds of it |
| `Residual.Pushdown` | go/clients/analytics/cassandra/residual.go:164-203 | The loop narrows the bounds clause by clause over the top-level AND clauses only |
| `Residual.PushdownLosesNothing` | go/clients/analytics/cassandra/residual.go:161-203 | Every row in the query's range that passes the filter is inside the pushed-down bounds |
| `Residual.PushdownIsTight` | go/clients/analytics/cassandra/residual.go:161-203 | The bounds are never wider than the range and within a millisecond of every time clause |
| `Residual.EnumerateBuckets` | go/clients/analytics/cassandra/store.go:312-316 | The loop visits, ascending and once each, exactly the aligned starts from the one holding the lower bound up to the upper bound |
| `Residual.BucketsCover` | go/clients/analytics/cassandra/store.go:312-316 | Every time in range lies in an enumerated bucket |
| `Residual.WidthMustBeCoarse` | go/clients/analytics/cassandra/store.go:45-46 | A row's bucket can be told from its grain-aligned time if and only if the width is at least as coarse as the grain |
| `Answers.AnswersIffCoarse` | go/clients/analytics/cassandra/store.go:45-46 | Every query on a cube at a grain answers as one pass over the distinct facts, whatever was written, if and only if the bucket width is at least as coarse as the grain |
| `Answers.FactIsNotFound` | go/clients/analytics/cassandra/store.go:252-316 | With a finer width, one written fact with an observation in a query's range that the query does not find |
| `Analytics.NewStore` | go/clients/analytics/cassandra/store.go:95-126 | A store is made exactly when every cube name is an identifier and every declared grain and its width are known, and it starts empty |
| `Analytics.Store.Write` | go/clients/analytics/cassandra/store.go:200-277 | The first invalid fact rejects the call before any insert; otherwise every fact is asked for at every grain of its cube and nothing else, the table holds what landed, and an error is returned exactly when some insert reported one |
| `Analytics.JobsFor` | go/clients/analytics/cassandra/store.go:210-241 | The validating loop gives one insert per fact per grain of its cube, or the error of the first fact that has one |
| `Analytics.CompactBucket` | go/clients/analytics/cassandra/compact.go:44-95 | Anything but a declared grain and an aligned, closed bucket is refused, a bucket past its retention is left alone, any other keeps every answer in one row per group |
| `Analytics.InsertsFileFacts` | go/clients/analytics/cassandra/store.go:252-277 | However often and in whatever order facts are inserted, each partition holds exactly the distinct facts of its bucket |
| `Analytics.WrittenIsTheSet` | go/core/interfaces/analytics.go:9-14 | What is stored depends on the set of facts, not on order or redelivery |
| `Analytics.MeasureNames` | go/clients/analytics/cassandra/store.go:362-370 | The names asked for, each once |
| `Analytics.Coarsest` | go/clients/analytics/cassandra/store.go:346-359 | The grain chosen is one of the cube's and none is coarser |
| `Analytics.BucketMerges` | go/clients/analytics/cassandra/stream.go:102-143 | The filtered, projected rows of a bucket merge, per time and group, to the projected fold of the stored rows they come from |
| `Analytics.TotalsDecide` | go/clients/analytics/cassandra/compact.go:33-43 | Two partitions that agree on every group's total agree on every selection of groups |
| `Analytics.PlanKeepsAsked` | go/clients/analytics/cassandra/store.go:283-343 | A stored row is delivered exactly when its time is in the query's range and the filter holds of it, bounds pushed down or not |
| `Analytics.AnyOrder` | go/foundation/vizql/reduce.go:16-19 | The rows of an answer group may arrive and be merged in any order |
| `Analytics.AggregateIsBruteForce` | go/clients/analytics/cassandra/store.go:283-343 | Merging the delivered rows of each time and group gives the one-pass summary over the distinct facts, for partitions as written or compacted |
| `Analytics.WrittenFactsAreAnswered` | go/clients/analytics/cassandra/store.go:200-343 | From any log of inserts through bucket enumeration to the merged answer: the brute-force summary of the distinct facts |
| `Analytics.FoldSummarizes` | go/foundation/vizql/reduce.go:35-79 | Folding facts summarizes exactly their observations of each measure |
| `Answers.LeftOutIff` | go/clients/analytics/cassandra/store.go:283-343 | Leaving facts out of an answer leaves it as it is if and only if none of those it asks for has a measure it asks for |
| `Answers.AnswerDescribes` | go/foundation/vizql/reduce.go:35-79 | The summary of a measure in an answer is that of exactly the matching facts' observations of it |
| `Answers.QueryGivesAggregates` | go/clients/analytics/cassandra/store.go:200-343 | From any log of writes through the query to finalization: count, sum, mean, least, greatest, p50, p95 and p99 are those of the observations of the distinct matching facts |
| `Stream.FindStart` | go/clients/analytics/cassandra/stream.go:181-203 | The stream starts at the first bucket not before the token's, at the token's page if it is that bucket, and at the beginning without a token |
| `Stream.ResumeContinues` | go/clients/analytics/cassandra/stream.go:272-285 | The token after a page is accepted, and a fresh stream opened with it reads exactly what follows that page; there is no token exactly when nothing follows |
| `Stream.FillLoop` | go/clients/analytics/cassandra/stream.go:206-219 | The loop starts the readers of the window ahead of the consumer, the first of them at the resumed page, and no others |
| `Stream.StepKeeps` | go/clients/analytics/cassandra/stream.go:206-268 | Every fetch, send, receive and advance keeps each live bucket's channel one page ahead of the consumer and its reader right behind |
| `Stream.PrefetchDeliversInOrder` | go/clients/analytics/cassandra/stream.go:206-268 | In every interleaving the delivered pages are a prefix of the plain bucket-by-bucket read, complete at the end, the error kept is the one ending the plain read, and at most `window` readers live |
| `Stream.MoreIsExact` | go/clients/analytics/cassandra/stream.go:239-268 | A page is returned with more=true exactly when another page or an error is still to come |
| `Stream.TokenResumesTheRest` | go/clients/analytics/cassandra/stream.go:270-289 | Whatever interleaving led there, the token resumes exactly what was not delivered |
| `Stream.SomeStepIsEnabled` | go/clients/analytics/cassandra/stream.go:206-268 | Until everything or an error has been delivered some step is possible |
| `Stream.RunsAreFinite` | go/clients/analytics/cassandra/stream.go:206-268 | A stream takes no more steps than the work it starts with |
| `Stream.ErrorIsSticky` | go/clients/analytics/cassandra/stream.go:239-268 | After an error nothing more is delivered and the error, the token and the position stay |
| `EndToEnd.QueryDuringCompaction` | go/clients/analytics/cassandra/stream.go:102-143 | With every bucket read page by page, each page at its own moment among writers, compactor, crashes and retries, the merged answer is the brute-force answer over the facts counted, and over all facts if and only if no missed fact asked for has a measure asked for |
| `EndToEnd.UndisturbedQuery` | go/clients/analytics/cassandra/compact.go:33-43 | The answer is brute force when every fact is there in time and no group gets a batch between two fetches that split it |
| `EndToEnd.LosingQuery` | go/clients/analytics/cassandra/compact.go:33-43 | Any query over one bucket that asks for a group in it and for the measure of two facts has a read of the bucket, with one batch between two of its pages, whose answer is wrong |
| `StreamRows.TakenUp` | go/clients/analytics/cassandra/stream.go:181-289 | The pages one stream delivered up to its token and those another delivered from it are together the rows of the plain read of what each of them fetched |
| `StreamRows.PlainReadIsReadAll` | go/clients/analytics/cassandra/stream.go:102-121 | However buckets are cut into pages, the plain read's rows are the buckets' rows in order |
| `EndToEnd.ResumedStreamAnswers` | go/clients/analytics/cassandra/stream.go:181-289 | A client that stops after any page and resumes with a new stream, under any two interleavings, with every page fetched at its own moment and those fetched ahead fetched again, has the brute-force answer over the facts counted, and over all facts if and only if no missed fact asked for has a measure asked for |
| `Numbers.LogFillsBuckets` | go/clients/analytics/cassandra/store.go:200-250 | Buckets whose runs wrote what the log files in their partitions hold the distinct facts of the log, each in its bucket |
| `Numbers.NumbersDuringCompaction` | go/clients/analytics/cassandra/store.go:200-343 | From any log of writes, through pages fetched among compaction, retries and crashes, to finalization: every aggregate, quantiles included, is that of the observations of the facts counted, and the answer is that of all facts if and only if no missed fact asked for has a measure asked for |
| `Numbers.ResumedStreamNumbers` | go/clients/analytics/cassandra/stream.go:181-289 | The same for a client that stops after any page and resumes with a new stream |
| `LockBackends.LocalLock.Acquire` | go/clients/lock/local/lock.go:40-56 | A free key is taken under the new token; a held one is left with its holder |
| `LockBackends.LocalLock.Renew` | go/clients/lock/local/lock.go:61-66 | True exactly for the holder's token |
| `LockBackends.LocalLock.Release` | go/clients/lock/local/lock.go:70-77 | Frees the key for the holder's token and changes nothing for any other |
| `LockBackends.RedisLock.Acquire` | go/clients/lock/redis/lock.go:84-101 | SET NX PX: takes an absent or expired key with a lease of whole milliseconds |
| `LockBackends.RedisLock.Renew` | go/clients/lock/redis/lock.go:105-112 | Compare, then extend (or, below a millisecond, delete) and report held; a foreign token changes nothing |
| `LockBackends.RedisLock.Release` | go/clients/lock/redis/lock.go:116-121 | Compare, then delete; a foreign token changes nothing |
| `LockBackends.LeasedRefinesLocal` | go/clients/lock/redis/lock.go:30-121 | On the unexpired keys acquire and release of the leased backend act as the in-process ones and a renewal answers as it does; it leaves the keys as it does if and only if the TTL is at least a millisecond or there is nothing to renew |
| `LockBackends.RenewalLeavesKeyHeld` | go/clients/lock/redis/lock.go:34-39 | A renewal that reports the key held leaves it held if and only if the TTL is at least a millisecond |
| `LockBackends.StaleCallsAreNoOps` | go/clients/lock/redis/lock.go:30-49 | A token that does not hold the key neither renews nor releases anything |
| `LockBackends.TimeOnlyExpires` | go/clients/lock/redis/lock.go:84-101 | Passing time only drops keys |
| `LockRuns.NextKeeps` | go/clients/lock/lock.go:199-247 | Every client, server and clock step keeps: until its last granted lease ends an unreleased call's key is stored under its token, and what a call believes is never newer than what the server did |
| `LockRuns.HolderHasTheKey` | go/clients/lock/lock.go:194-247 | In every run, a holder within the whole milliseconds of its lease since it sent its last successful request still has the key |
| `LockRuns.LeaseExcludes` | go/clients/lock/lock.go:194-247 | While it does, no acquire of the key succeeds and no other call is such a holder |
| `LockRuns.TtlSafeIffWholeMillis` | go/clients/lock/lock.go:111-130 | For an accepted configuration, every holder within its TTL has the key in every run if and only if the TTL is whole milliseconds |
| `LockRuns.LapsedRun` | go/clients/lock/lock.go:223-244 | For any accepted configuration, a run in which the holder renews at its first tick and the clock reaches the end of the whole milliseconds granted: the key is gone |
| `LockTiming.MissedTicksIff` | go/clients/lock/lock.go:66-69 | In every run the two ticks after its last successful request pass a holder by with the key still held, whenever its acquire was answered within some delay, if and only if that delay and two intervals are less than the whole milliseconds of the TTL |
| `LockTiming.SlowAcquireRun` | go/clients/lock/lock.go:199-229 | For any accepted configuration and delay, a run in which the acquire is taken at once and answered that much later, and the clock then reaches the end of the lease with no tick taken: the key is gone, the watchdog at work and the context not cancelled |
| `LockTiming.AcceptedIntervals` | go/clients/lock/lock.go:66-69 | After an acquire answered at once two missed ticks are safe with accepted intervals of a millisecond or more and with whole-millisecond TTLs; every accepted configuration has a delay of at most the TTL with which they are not |
| `LockTiming.LossGoesUnnoticed` | go/clients/lock/lock.go:195-198 | For any accepted configuration, a run that reaches a holder with the key gone, its watchdog at work and its context not cancelled |
| `LockTiming.LossIsNoticed` | go/clients/lock/lock.go:224-244 | In every run in which due ticks are taken and renewals answered within two delays, a holder that has lost its key, however, is cancelled within an interval and both delays |
| `LockTiming.StaysLost` | go/clients/lock/redis/lock.go:31-52 | No step of any run gives a lost key back to a token that held it |
| `LockRuns.CancelledBeforeFree` | go/clients/lock/lock.go:213-222 | For every positive TTL, a key a holder has goes, short of the lease last granted running out, only after that holder's context was cancelled and its release asked for |
| `LockRuns.ReleaseIsOnce` | go/clients/lock/lock.go:212-222 | A released call stays cancelled and never sends a second release |
| `Vizql.ProductLoop` | go/foundation/vizql/algebra.go:46-56 | The nested loops extend every left tuple by every right tuple, left outer |
| `Vizql.NormalizeLoop` | go/foundation/vizql/algebra.go:19-42 | The recursive loops compute the normal form: union of concatenated operands, product of crossed and nested ones |
| `Vizql.ProductRefs` | go/foundation/vizql/algebra.go:46-56 | A product of non-empty tables has every field of both and loses none |
| `Vizql.NormalizeKeepsLeaves` | go/foundation/vizql/algebra.go:15-42 | The normal form of a well-formed shelf is not empty and holds exactly the shelf's leaves |
| `Vizql.ValidateShelf` | go/foundation/vizql/parse.go:150-181 | Accepts a shelf exactly when it is no deeper than 8, its operators are known with operands, none missing, and every leaf is allow-listed; and collects the keys of its leaves |
| `Vizql.ValidateFields` | go/foundation/vizql/parse.go:105-128 | Accepts exactly the allow-listed placements of shelves, detail and encodings, and collects the keys of every placed field |
| `Vizql.Validate` | go/foundation/vizql/parse.go:64-101 | Accepts a spec exactly when scalars, fields and every sort key are valid |
| `Vizql.BuildQuery` | go/foundation/vizql/compile.go:89-137 | The loop groups by the dimensions and computes the measures in order of first use, each once, and rejects count_distinct and sort keys that are neither |
| `Vizql.QueryCovers` | go/foundation/vizql/compile.go:89-137 | Exactly the placed dimensions are grouped by, exactly the placed measures computed, none twice |
| `Vizql.KeysTellApart` | go/foundation/vizql/compile.go:89-137 | Two aggregated fields with one key are the same field when no aggregate name has a parenthesis |
| `Vizql.Compile` | go/foundation/vizql/compile.go:54-85 | Compiles exactly when cube and grain match and the query is answerable; panes are rows by columns, and each pane key has the mark of the last place that has it |
| `Vizql.RefsArePlaced` | go/foundation/vizql/compile.go:89-137 | The query of a valid spec sees exactly the placed fields |
| `Vizql.ValidSpecCompiles` | go/foundation/vizql/compile.go:45-53 | A validated spec on its own cube compiles if and only if it asks for no count_distinct |
| `Vizql.PanesAreCovered` | go/foundation/vizql/compile.go:54-137 | Every field of every pane is grouped by or computed by the one query |
| `Drill.ChildOf` | go/foundation/vizql/drill.go:67-77 | The level after the first place, hierarchies in order and each from its top, where the field has one; none exactly when it has none anywhere |
| `Drill.DocumentedIff` | go/foundation/vizql/drill.go:67-77 | The child found is the documented one if and only if the field has a child in the first hierarchy containing it, or in none |
| `Drill.DocumentedChildDiffers` | go/foundation/vizql/drill.go:67-77 | With hierarchies a, b and b, c the child of b is c, where the documentation gives none |
| `Drill.DrillDown` | go/foundation/vizql/drill.go:14-65 | Drills exactly when the cube declares the child, and then every shelf, detail, encoding and sort key is renamed and nothing else |
| `Drill.NormalizeDrilled` | go/foundation/vizql/drill.go:80-96 | Normalizing a drilled shelf is renaming in its normal form |
| `Drill.QueryDrilled` | go/foundation/vizql/drill.go:14-65 | The drilled query groups by the old list, renamed and deduplicated, and computes the same measures |
| `Drill.DrilledCompiles` | go/foundation/vizql/drill.go:14-65 | A spec that compiles still does after drilling if and only if no sort is by the drilled field, or that field is grouped by, or the child is grouped by or computed |
| `Drill.DrilledSortIsLost` | go/foundation/vizql/drill.go:36-48 | A spec sorted by a measure whose key is spelled like the drilled field compiles before and not after |
| `Drill.DrilledStaysValid` | go/foundation/vizql/drill.go:14-65 | A valid spec is valid after drilling if and only if the child is no measure where the field was placed and a sort by the field's name is by the dimension or finds the child placed |
| `Outbox.Backoff` | go/services/outbox/relay.go:323-333 | The wait is between base and max without overflow, and equals min(base·2^n, max) if and only if not (n ≥ 1 and base·2^n = max − 1) |
| `Outbox.BackoffOvershoots` | go/services/outbox/relay.go:323-333 | One doubling of 1 under a cap of 3 waits 3, not 2 |
| `Outbox.ChunksPartition` | go/services/outbox/relay.go:234-244 | The sends partition the claim in order, every chunk full but perhaps the last |
| `Outbox.Relay.Finalize` | go/services/outbox/relay.go:293-321 | Records sent, parked or rescheduled for that row only, and reports a refused update |
| `Outbox.Relay.Deliver` | go/services/outbox/relay.go:254-280 | Every row of a chunk gets its own outcome; a wrong number of results fails them all; interrupted rows are left leased |
| `Outbox.Relay.RunOnce` | go/services/outbox/relay.go:214-250 | A failed claim changes nothing and fails the run; otherwise every claimed row gets exactly its one outcome, whatever happens to the others, and an error is returned exactly when some update was refused |
| `Outbox.EachRowItsOutcome` | go/services/outbox/relay.go:214-280 | In whatever order deliveries finish, each row gets its own outcome and no other row changes |
| `Outbox.OrderIsImmaterial` | go/services/outbox/relay.go:214-250 | Every complete order of the concurrent updates leaves the same table |
| `Outbox.SentOnlyWhenDelivered` | go/services/outbox/relay.go:282-321 | A row is marked sent exactly when its send succeeded, left leased exactly when it was interrupted, and rescheduled only below the attempt limit |
| `Outbox.NextKeeps` | go/services/outbox/relay.go:192-197 | Every enqueue, claim, outcome, refused update and crash keeps: a row was rescheduled only after distinct attempts below the limit and is sent only if some attempt was delivered |
| `Outbox.RetriesAreBounded` | go/services/outbox/relay.go:290-321 | Across all runs, relays, crashes and expired leases a row is rescheduled fewer than MaxAttempts times and marked sent only if delivered |
| `Outbox.FinalStaysFinal` | go/services/outbox/relay.go:290-321 | A sent or parked row never becomes pending, and so claimable, again |
| `FanOut.NextKeeps` | go/execution/engine/fan_out.go:26-108 | Every spawn, cancellation, tail result, finish, observer call, exit and flush of any job keeps: slots within bounds, the mutex with whoever calls the observer, and the log exactly what was told and fired |
| `FanOut.BoundedAndSerial` | go/execution/engine/fan_out.go:48-106 | At any moment of any run a job has at most `workers` goroutines alive, whether at work, with a result stored, being told or told, only those are at work, and the group has at most one observer call going on |
| `FanOut.ResultAtItsIndex` | go/execution/engine/fan_out.go:26-108 | What the work of an item produced, normally or by a panic, is what the fan-out returns at that index |
| `FanOut.EachStepOnce` | go/execution/engine/run.go:53-84 | A finished job that returned its fan-out results followed by extras had each returned step told to the observer exactly once, live or late, with its own result, and nothing else |
| `FanOut.AggregatesAreNotRefired` | go/execution/engine/run.go:73-84 | A job that returns no more steps than were told live has none fired again |
| `FanOut.SomeStepIsEnabled` | go/execution/engine/fan_out.go:48-106 | While some job is not done some step is possible: neither the worker slots nor the shared mutex deadlock the group |
| `FanOutRuns.HeardOfJob` | go/execution/engine/run.go:37-84 | The observer hears of a finished job every item's result and the returned steps beyond as many as there were items, nothing else |
| `FanOutRuns.HeardIsReturnedIff` | go/execution/engine/run.go:66-84 | The observer hears exactly the returned steps, each as often as returned, if and only if the job returned its fan-out's results first, in any order, and whatever else after them |
| `FanOutRuns.ErrorAfterFanOut` | go/execution/engine/run.go:43-84 | A job that fails after a fan-out returns one failing step the observer never hears of |
| `FanOutRuns.UnheardFailure` | go/execution/engine/run.go:43-84 | For any two results, a run of one job whose item is told with the first and which then returns the second as its one failing step: the observer hears only the first |
| `FanOutRuns.RunsAreFinite` | go/execution/engine/run.go:20-91 | A run in which no job returns more than some number of steps is no longer than the work it starts with |

## Left out

- The SQL, in-memory and other datastore backends, `CompileOrder`, parsing of list queries and their allow-lists: the store is a contract.
- Mapping rows to domain values and its errors; errors of a datastore read or count.
- Chains of requests under a custom sort over a changing table: the source offers them no keyset token and promises nothing.
- `PagingChain.NoDupNoSkip` and `FixedTable.FollowingCursorsReadsTheTable`: rows must carry cursor values without loss, which `Paging.TimestampRoundTrip` states exactly and `Paging.TimesAround1970` gives for present-day timestamps.
- `FixedTable.OffsetContinues`: page numbers of a custom sort must fit int32; 64-bit overflow of (page − 1) · limit is not modelled.
- Floating-point rounding of sums and the relative error of quantile sketches; `Partials.Merge` is on values, so the source's sketch aliasing is not captured.
- Encoding of partials and errors of decoding them.
- `Analytics.CompactBucket`: rows that expire by their TTL are not modelled.
- `CompactionRuns.CompactionPreservesAnswers`: a batch takes effect when it is sent, or again while it is the last of its group; `LateBatches.LandingsKeepIff` covers one that takes effect later.
- `LateBatches.LandingsKeepIff`: no new fact arrives between the first late batch and the last, and a rerun that reads after one is covered only when nothing was lost (`LateBatches.LandedGoesOn`).
- `Analytics.WrittenFactsAreAnswered`: the bucket width must be at least as coarse as the grain, which `Answers.AnswersIffCoarse` shows to be exactly what is needed.
- `EndToEnd.ResumedStreamAnswers`: a single page fetch is atomic; replicas that disagree are not modelled.
- Millisecond rounding of times bound to CQL statements.
- Closing a stream early and a context that ends while `Next` waits.
- Decorators of the lock (retry, circuit breaker, timeout, metrics, tracing, logging), a Redis failover that loses a write, failing token generation, and overflow of 3 · RenewInterval.
- `Vizql.Validate`: the spec's filter is carried along unparsed.
- `Outbox.Relay.RunOnce`: chunks are sent one after the other, and `Outbox.EachRowItsOutcome` covers other orders; how a claim picks its rows is the store's.
- The relay's gauges, jitter and tracing.
- Durations of steps, observers that panic, and a job that fans out more than once.
- `FanOut.NextKeeps`: the default of NumCPU workers is any positive number.
- Everything else in the repository: HTTP, configuration, sinks, retrieval, agents and the other clients.
