# imbh-go: a verified model of the binding

imbh-go binds an embedded telemetry store (imbh, Rust) to Go. Queries run on the Rust side and stream Arrow record
batches to a Go cursor over sable, a runtime bridge whose wire carries opaque handles and nothing else; every error
and every piece of page metadata travels out of band, in process-wide maps keyed by a query id. This project models
the parts of the binding whose correctness spans several functions, two languages or many interleavings, and proves
what they keep.

`dafny verify dfyconfig.toml` checks everything.

## What is modelled

**The streaming protocol** (`Shells`, `StreamProtocol`, `StreamInvariant`, `StreamPreservation`, `StreamTheorems`,
`StreamHandles`, `StreamWitnesses`, `Rows`). An interleaved transition system. Every atomic effect of a Rust handler, of the bounded
channel, of a Go cursor and of its caller is one action; a run is any sequence of enabled actions over any number
of concurrent queries, failed opens, closes and cancellations. The state holds `QUERY_ERRORS`, `PAGE_META`,
`LIVE_BATCHES`, the heap of boxed batches with ledgers of what was freed, and all id counters. The inductive
invariant `Inv` is kept by every action, so the theorems hold in every state any run reaches. `Rows` is the Go cursor
as a class whose methods run one action per visible effect while an arbitrary schedule of everybody else runs in
between; its postconditions come from the theorems. From sable the model takes what the source's comments state:
FIFO delivery, end-of-stream only when the sender is gone and the queue empty, `send` failing after close, and a
dropped handle calling its release callback.

**The trace forest** (`TraceForest`, `TraceReach`, `TraceOrder`, `AssembleTrace`, `TraceWalk`). `Assemble` builds heap
nodes, an id map and child lists in the source's three loops; the lemmas say what can be reached by following
pointers, what a depth-first walk meets, and when the order of the input shows in the result.

**Row decoders** (`LabelKeys`, `SeriesDecoders`). The index-map loops against a plain group-by, and how far the
grouping keys tell label sets apart.

**Paging and tailing** (`Paging`, `LogTail`). The cursor arithmetic over a fixed result, and the follow loop over
arbitrary runs of arrivals and polls.

**The fetch tool** (`FetchCache`, `FetchSums`, `ShellQuoting`). Any number of `imbhgo-fetch` processes interleaved on one cache
directory, each failing or being killed between any two file operations; the flags it prints against readers of
POSIX words, PowerShell literals and cmd/go's `CGO_LDFLAGS` fields.

**Wire formats** (`Wire`). Request framing and ingest receipts. `Ordering` and `Wrappers` are shared.

## Where the code keeps less than its comments say

- The empty message means "no error" to `takeStoredError` (db.go:129, db.go:224-234), so a failure whose message is
  empty ends the iteration with a nil error. `NoSilentTruncation` states the exact condition and
  `EmptyMessageTruncates` gives the run; `EmptyMessageLosesPage` does the same for a paged query.
- An error stored after the cursor's only fetch stays in its slot for good; db.go:247-250 admits it, and
  `ErrorSlotLeftover` says exactly when. The same happens to page metadata when a paged query is cancelled before
  its handler ran, although ARCHITECTURE.md:110 and logpage.go:70-71 say that the slot never leaks
  (`PageMetaLeftover`, `CancelledPageLeaks`). A stream drained to its end leaks neither (`DrainedNeverLeaks`).
- "No span is ever dropped" (trace_tree.go:22-23) holds unless parent links form a cycle: spans whose parent chain
  enters one are attached but cannot be reached from the roots (`ReachableUnlessCyclic`, `SelfParentIsDropped`).
- The output of `AssembleTrace` is "stable regardless of input order" (trace_tree.go:27-28) exactly when no id that
  two different spans carry leads, over the parents of all spans with each id, to an empty or absent parent, or,
  what is the same, when no such id can be reached in any order (`OrderIndependence`). Distinct SpanIDs suffice.
- A `seriesKey` belongs to one label map alone exactly when the map has at most one label and no NUL byte
  (`OwnsSeriesKeyIff`). Among NUL-free maps of any size keys are unique (`SeriesKeyInjective`); a map that holds a NUL
  always shares its key (`NulCollides`). A `labelsAt` key belongs to one row alone exactly when the row has at most
  one column or holds no NUL (`OwnsKeyIff`).
- `HasMore` promises a following page; when the result length is a multiple of the limit that page is empty
  (`HasMoreExactly`).
- The follow loop "cannot be overtaken" (README.md:259) exactly when every arrival is later than the watermark of
  its moment and no poll's limit cuts between records of one instant (`NoSkipIffClean`); under the same condition on
  the limit it catches up once arrivals stop (`CatchesUpIffClean`).
- That a record without an observed time is "left out of the loop rather than replayed on every poll"
  (README.md:285-288) fails while the watermark is 0: such a record is delivered by every poll that returns it, any
  number of times (`DeliveryCount`, `ReplayedOnEveryPoll`). As many records with an observed time at or below 0 as the
  limit keep the watermark at 0 for good (`LeavesZeroIff`, `Starved`).
- A cache directory used with several sums can hand out a wrong archive as a cache hit, exactly when two of them stand
  for different archives, or one without an asset can be pieced together from the lines of others while processes
  overlap; for processes that never overlap, exactly when two stand for different archives or one without an asset is
  the start of another (`CacheSafeIff`; `TwoArchives`, `SplicedThirdSum` and `ShortThirdSum` show that each condition
  can fail). With one sum it never does (`OneSumIsSafe`). No freedom from hash collisions is assumed.
- The linker flags survive cmd/go exactly for the directory names `DirOk` describes (`LdflagsSplitIff`).

## Model

| member | source | states |
|---|---|---|
| Shells.ExportKeeps | rust/src/lib.rs:185-193 | boxing a batch keeps the ledger sound: one more box in flight, LIVE_BATCHES one higher, nothing freed or released |
| Shells.TakeRecordKeeps | rust/src/lib.rs:203-208 | the taken path frees the box exactly once and releases no buffer, whether or not the importer nulled the source |
| Shells.BatchReleaseKeeps | rust/src/lib.rs:213-218 | the abandoned path frees the box exactly once and releases its still-armed buffers exactly once |
| Shells.ImportFailedKeeps | db.go:195-203 | a failed import, whatever it did to the buffers, leaves the box to be freed once and no buffer released twice |
| Shells.ShellFreeLostKeeps | db.go:199-202 | the shell of a failed import is freed exactly once |
| StreamPreservation.StepKeeps | rust/src/lib.rs:553-607 | every action of every handler, cursor, opener, channel or client keeps the whole invariant: id ownership, box ownership, order of the pipe, both slot maps |
| StreamPreservation.ReachableInv | rust/src/lib.rs:553-607 | the invariant holds after any interleaving from start-up |
| StreamPreservation.OpenStreamKeeps | db.go:154-165 | a new stream's id was never used by another stream, open attempt or slot |
| StreamTheorems.DeliveredIsPrefix | db.go:187-205 | in every reachable state the batches Next returned are an in-order prefix of what the engine yielded |
| StreamTheorems.NoSilentTruncation | db.go:208-221 | when Next itself ended with a nil error, the caller holds the whole result of a clean query if and only if the query did not fail with an empty message |
| StreamTheorems.StoredErrorSurfaces | db.go:208-234 | at end-of-stream with a live context and a working fetch, the terminal error is exactly what this query's own handler stored |
| StreamTheorems.StoredIsFailure | rust/src/lib.rs:553-607 | a handler stores at most one message, and only its query's own failure or the unknown-handle report |
| StreamHandles.ClosedHandleIsRefused | rust/src/lib.rs:557-563 | a query whose database was closed before its handler began delivers nothing and stores no metadata in any later state, stores its parse error or "unknown db handle", and Next reports exactly that at end-of-stream |
| StreamHandles.OpenHandleIsServed | rust/src/lib.rs:561-567 | a query whose database is open when its handler begins stores nothing but its own failure in any later state, whatever is closed meanwhile |
| StreamHandles.HandlesAreUnique | rust/src/lib.rs:161-165 | no two opens get the same handle and none gets 0 |
| StreamHandles.OpenRegisters | rust/src/lib.rs:161-165 | a successful open returns a handle that is now open, was not before, and closes none |
| StreamHandles.CloseCloses | db.go:140 | closing a handle closes it and no other |
| StreamHandles.ClosedForever | rust/src/lib.rs:158-169 | a closed handle stays closed in every later state |
| StreamHandles.OpenFailureReachesCaller | db.go:119-137 | a failed open reports its own cause once fetched, and the slot is then empty |
| StreamHandles.EveryOpenTakesAnId | db.go:74-78 | every open of a database or stream, refused ones included, takes the next id, and nothing else moves the counter |
| StreamHandles.HandlerProceeds | rust/src/lib.rs:567-585 | a handler that has not returned always has a next step, except at a full channel |
| StreamTheorems.EarlyCloseReportsNil | db.go:188-190 | after an early Close every Next reports nil |
| StreamTheorems.TwoFree | rust/src/lib.rs:174-179 | every box is freed at most once, freed exactly when no longer in flight, and LIVE_BATCHES is the number of boxes in flight |
| StreamTheorems.InFlightIsHeap | rust/src/lib.rs:174-193 | the boxes queued, being sent or taken are exactly the live ones |
| StreamTheorems.BuffersReleasedOnce | rust/src/lib.rs:195-218 | Arrow buffers are released at most once, and (import failures apart) exactly once nobody holds them |
| StreamTheorems.ClosedStreamSettles | rust/src/lib.rs:567-575 | from any state with a closed cursor, the handler and the channel alone reach a state holding none of the query's boxes, within a stated number of steps |
| StreamTheorems.EveryRunSettles | rust/src/lib.rs:567-575 | in every run after close, however the rest interleaves, the handler and channel take at most a stated number of steps, and once they have taken them none of the query's boxes is left |
| StreamTheorems.ClosedStepShrinks | rust/src/lib.rs:569-573 | after close, each handler or drain step makes progress and cannot touch the cursor |
| StreamTheorems.ClosedStepExists | rust/src/lib.rs:569-573 | after close, a handler with work left is never stuck |
| StreamTheorems.SettledHoldsNothing | rust/src/lib.rs:174-179 | a stopped handler with an empty channel and an idle cursor holds no box |
| StreamTheorems.ErrorsAreOwn | db.go:119-137 | what a query's fetch returned its own handler stored, what a failed open reports that open stored, and no id serves both |
| StreamTheorems.ErrorSlotLeftover | db.go:239-259 | once both sides are done the slot is occupied if and only if the handler stored after the only fetch or that fetch failed in transport |
| StreamTheorems.PageMetaLeftover | logpage.go:68-73 | after the metadata fetch the slot is occupied if and only if the handler stored later or that fetch failed in transport |
| StreamTheorems.DrainedNeverLeaks | db.go:208-221 | a stream drained to its end leaves neither slot occupied, then or in any later state |
| StreamTheorems.PageMetadataPairing | logpage.go:60-80 | a paged query that ended with a nil error gets the metadata its own handler stored, if and only if planning did not fail with an empty message |
| StreamWitnesses.EmptyMessageTruncates | db.go:129-137 | a run in which an empty failure message loses rows behind a nil error |
| StreamWitnesses.EmptyMessageLosesPage | logpage.go:60-80 | a run in which planning fails with an empty message and the page comes back with a nil error and no metadata |
| StreamWitnesses.LateStoreLeaks | db.go:247-250 | a run in which a late store occupies the error slot after both sides are done |
| StreamWitnesses.CancelledPageLeaks | logpage.go:68-73 | a run in which a cancelled paged query strands its metadata |
| RowsCursor.OthersKept | db.go:167-174 | whatever the rest of the process does between two statements of a cursor, it changes nothing of that cursor but its context |
| RowsCursor.Rows.constructor | db.go:154-165 | openStream gives a fresh id and a cursor that has delivered nothing |
| RowsCursor.Rows.TakePulled | db.go:195-199 | import then shell free: on success exactly the pulled batch is delivered, on failure the import error goes to finish |
| RowsCursor.Rows.Next | db.go:187-205 | under any schedule: an ended cursor repeats its error and changes nothing; a batch comes back exactly when one waits and imports, and extends the in-order prefix; a failing end reports the import error, the cancelled context or what the own handler stored; a nil-error end is complete up to the empty-message case |
| RowsCursor.Rows.Finish | db.go:206-221 | records the terminal error once and closes: an import error first, then a cancelled context, then the one fetched error |
| RowsCursor.Rows.Close | db.go:251-259 | idempotent; an early one claims the slot, which stays empty unless the handler stores late |
| RowsCursor.Rows.FetchLogPageMeta | logpage.go:88-111 | the reply is what the slot held; after a nil error that is the query's own metadata; after a drained stream the slot is empty |
| AssembleTrace.BuildNodes | trace_tree.go:36-46 | one new node per first occurrence of a SpanID, in input order, and a map that finds exactly those |
| AssembleTrace.LinkNodes | trace_tree.go:49-61 | every node is in the root list or in its parent's child list, in input order |
| AssembleTrace.SortChildren | trace_tree.go:63-67 | every child list ends up in (StartTime, SpanID) order |
| AssembleTrace.Assemble | trace_tree.go:30-68 | said of span fields and pointers alone: one node per SpanID with its first span; a node is a root exactly when it names no parent or none of the nodes is that parent, and a child of exactly the node it names; every list ascends by StartTime, then SpanID bytewise |
| AssembleTrace.BuildForest | trace_tree.go:30-68 | the three loops build the root and child lists the span list calls for |
| Ordering.BytesLessIff | trace_tree.go:77 | the byte order is: the smaller byte at the first difference, or the shorter of two when one starts the other |
| AssembleTrace.NodeListed | trace_tree.go:49-61 | a node is a root, or a child of exactly the node its parent id names |
| AssembleTrace.AssembledIsWired | trace_tree.go:30-68 | the sorted lists determine the pointers: one node per kept span, each a root or a child of exactly its parent's node |
| AssembleTrace.OneParent | trace_tree.go:49-61 | no node has two parents or is both root and child |
| AssembleTrace.ListsDistinct | trace_tree.go:49-67 | no list mentions a node twice |
| AssembleTrace.PointersMatchChains | trace_tree.go:30-68 | a node is at depth d below the roots if and only if its parent chain has length d |
| AssembleTrace.ReachableUnlessCyclic | trace_tree.go:18-30 | a node is reachable from the roots if and only if its parent chain enters no cycle |
| AssembleTrace.ReachableIsVisible | trace_tree.go:30-68 | the nodes reached by pointers are those of the spans that OrderIndependence calls visible |
| AssembleTrace.ReachableAtOneDepth | trace_tree.go:30-68 | what is reachable is a finite forest: one depth per node, below the number of nodes |
| TraceWalk.WalkMeetsOnce | trace_tree.go:30-68 | a depth-first walk from the roots ends and meets every span whose parent chain enters no cycle exactly once, and nothing else |
| TraceWalk.DepthFirst | trace_tree.go:15-18 | the same walk over the node pointers lists the spans in that order |
| TraceWalk.AssembleAndWalk | trace_tree.go:30-68 | assembling and walking meets no node twice and exactly the visible spans |
| AssembleTrace.AcyclicLosesNothing | trace_tree.go:22-23 | acyclic input: every SpanID of the input is reachable |
| AssembleTrace.SelfParentIsDropped | trace_tree.go:22-23 | a kept span naming itself as parent is in no returned tree, whatever else the input holds |
| TraceForest.KeptDistinct | trace_tree.go:25-26 | after dedup the ids are distinct, every kept span is from the input, and no input id is lost |
| TraceForest.KeptIsFirst | trace_tree.go:25-26 | the kept span of an id is its first occurrence |
| TraceReach.ChainUnlessCyclic | trace_tree.go:50-61 | a parent chain ends at an empty or absent parent if and only if it enters no cycle |
| TraceReach.ChainIsShort | trace_tree.go:50-61 | a chain that ends is shorter than the number of spans |
| TraceOrder.OrderIndependence | trace_tree.go:27-28 | every permutation of the input gives the same roots and the same children of every reachable span if and only if no id carried by two different spans leads to an empty or absent parent, if and only if no such id is reachable in any order |
| TraceOrder.ConsistentIsIndependent | trace_tree.go:27-28 | when equal SpanIDs mean equal spans, every permutation gives the same whole graph, reachable or not |
| TraceOrder.Realize | trace_tree.go:36-46 | a span nearest to a root among those with its id can be reached in some order of the input |
| Ordering.AscendingUnique | trace_tree.go:72-79 | under a strict total order a set of elements has one sorted listing, so the sorting algorithm does not matter |
| Ordering.SortAscending | trace_tree.go:72-79 | the sorted list is ascending and has the same elements |
| LabelKeys.SeriesKey | lgtm.go:150-164 | whatever order the map iterates in, the key is the one function of the map |
| LabelKeys.SeriesKeyInjective | lgtm.go:149-164 | on NUL-free label maps, equal keys if and only if equal maps |
| LabelKeys.NulCollides | lgtm.go:149-164 | every map that holds a NUL shares its key with a different map |
| LabelKeys.OwnsSeriesKeyIff | lgtm.go:149-164 | no other label map has this one's key if and only if it has at most one label and no NUL |
| LabelKeys.LabelsAt | results.go:254-264 | the label map and the terminated key of one row |
| LabelKeys.LabelMapLast | results.go:254-264 | a name is mapped to the value of its last column |
| LabelKeys.LabelMapAt | results.go:254-264 | every GroupBy name is mapped to its own column's value, repeated names included |
| LabelKeys.LabelMapReads | results.go:254-264 | the label map is the one map with exactly the GroupBy names and their columns' values |
| LabelKeys.TupleKeyInjective | results.go:252-264 | on NUL-free rows of any width, equal keys if and only if equal rows |
| LabelKeys.OwnsKeyIff | results.go:252-264 | no other row of as many columns shares this row's key if and only if it has at most one column or holds no NUL |
| LabelKeys.NulTupleCollides | results.go:252-264 | with two or more columns, every row that holds a NUL shares its key with a different row |
| LabelKeys.KeyStandsForLabels | results.go:252-264 | under any GroupBy names, repeated or not, a row with at most one column or without NUL has the key of exactly the rows with its label map |
| LabelKeys.KeyStandsForLabelsIff | results.go:252-264 | under different names that holds against every row if and only if the row has at most one column or holds no NUL |
| SeriesDecoders.MapStringAt | results.go:133-148 | the map has exactly the keys of the cell's entries, each with the value of its last entry |
| SeriesDecoders.LastWinsUnique | results.go:133-148 | only one map reads a cell that way |
| SeriesDecoders.DecodeLabeledSeries | lgtm.go:116-147 | said of the input rows: with NUL-free labels every row is in exactly one series, the one with its labels, whose points are the samples of exactly its rows in row order, and series stand in order of appearance; with any labels it is the group-by of the concatenated batches; a stream error gives that error and no series |
| SeriesDecoders.QueryMetricsTyped | results.go:268-302 | the same for metric rows, whose labels are the GroupBy names with the row's columns |
| SeriesDecoders.FirstsKeys | lgtm.go:132-139 | series come one per key, and every row's key has one |
| SeriesDecoders.FirstsOrder | lgtm.go:135-139 | an earlier series shows a row before every row of a later one |
| SeriesDecoders.PointsConserved | lgtm.go:132-143 | the series hold as many points as there are rows |
| SeriesDecoders.OneSeriesPerLabelSet | results.go:247-250 | when keys tell label sets apart: one series per label set, holding exactly its rows' points in row order |
| SeriesDecoders.LabeledKeysTell | lgtm.go:149-164 | NUL-free label maps meet that condition |
| SeriesDecoders.MetricKeysTell | results.go:252-264 | metric rows meet that condition under any GroupBy names, with NUL-free groups unless there is only one name |
| Paging.PageIs | rust/src/lib.rs:856-879 | for every limit and cursor: the rows from the cursor on, at most limit of them or the engine's default without one; a cursor exactly when a limit was given and reached, and behind this page's rows; the statistics count the rows |
| Paging.WalkPages | logpage.go:56-80 | following Next while HasMore ends after floor(n/limit)+1 pages that concatenate to the unpaged result; without a limit it ends after one page |
| Paging.HasMoreExactly | rust/src/lib.rs:862-871 | HasMore if and only if a limit was given and the page is full; the next page is empty if and only if this one ended at the last row; no HasMore under a limit means nothing is left |
| LogTail.Follower.PollOnce | observed_time_test.go:219-235 | one poll delivers the entries in order; the watermark never goes back, covers every entry and is the old one or some entry's observed time |
| LogTail.AdvanceBounds | observed_time_test.go:230-234 | the watermark never goes back, covers every entry, and is the old one or some entry's |
| LogTail.DeliveryCount | README.md:264-290 | over any run a positive observed time is delivered at most once; any other record exactly as often as a poll at watermark 0 returned it |
| LogTail.NonPositiveCount | rust/src/lib.rs:719-723 | once the watermark is positive, a record without a positive observed time is never delivered again |
| LogTail.ReplayedOnEveryPoll | README.md:285-288 | for every n, a run of n polls that delivers a record without an observed time n times |
| LogTail.LeavesZeroIff | observed_time_test.go:219-235 | a poll at watermark 0 gets past it if and only if some stored record has a positive observed time and fewer than limit have one at or below 0 |
| LogTail.Starved | observed_time_test.go:219-235 | with as many such records as the limit, the watermark stays 0 and no positive record is delivered in any later state |
| LogTail.NoSkipIffClean | README.md:259-283 | over a whole run nothing the watermark has passed is missing, if and only if every arrival was above the watermark of its moment and no limit split an instant |
| LogTail.CatchesUpIffClean | README.md:259-283 | with no further arrivals, as many polls as there are stored records deliver every positive record, if and only if no poll's limit splits an instant |
| LogTail.PollShrinksPending | observed_time_test.go:219-235 | a poll with positive records still above the watermark gets past at least one of them |
| LogTail.SkippedForever | rust/src/lib.rs:719-723 | a record once skipped is never delivered later |
| FetchCache.StepKeeps | cmd/imbhgo-fetch/main.go:110-165 | every step of every process keeps the directory's invariant |
| FetchCache.ArchiveIsWhole | cmd/imbhgo-fetch/main.go:223-251 | under any interleaving, failure or kill the archive is absent or all of some checksummed asset, and flags are printed only when it is present |
| FetchCache.KillLeavesDisk | cmd/imbhgo-fetch/main.go:234-250 | a kill leaves every file as the process left it, the temporary one included, and prints nothing |
| FetchCache.OneSumIsSafe | cmd/imbhgo-fetch/main.go:110-165 | with one expected sum, archive and every printed flag (hit, install or offline) stand for the verified asset |
| FetchSums.CacheSafeIff | cmd/imbhgo-fetch/main.go:137-165 | every online run prints flags for an archive of its own sum if and only if all sums with an asset stand for the same archives and no sum without one can be spliced from them; for runs that never overlap, the last part reads: no sum without an asset is the start of one that has one |
| FetchSums.AloneRun | cmd/imbhgo-fetch/main.go:158-160 | without overlap the sidecar is always the start of one installed sum's line |
| FetchSums.CutBreaks | cmd/imbhgo-fetch/main.go:158-160 | the sequential run in which a kill during the sidecar write makes a shorter sum a cache hit |
| FetchSums.TwoArchives | cmd/imbhgo-fetch/main.go:155-160 | a setting in which two sums disagree and nothing can be spliced |
| FetchSums.SplicedThirdSum | cmd/imbhgo-fetch/main.go:158-160 | a setting in which only a spliced sum spoils the directory |
| FetchSums.ShortThirdSum | cmd/imbhgo-fetch/main.go:158-160 | a setting in which a sum is the start of another and all sums with an asset agree |
| FetchSums.SumsRun | cmd/imbhgo-fetch/main.go:158-160 | whatever processes overlap, each sidecar character is the one some installed sum has there or a gap, and a cache hit finds such a sum |
| FetchSums.BuildSidecar | cmd/imbhgo-fetch/main.go:158-160 | every such text can come about beside an installed archive |
| FetchSums.PhantomBreaks | cmd/imbhgo-fetch/main.go:200-208 | the run in which a sum without an asset is a cache hit |
| FetchCache.TwoSumsBreak | cmd/imbhgo-fetch/main.go:155-160 | the sequential run that breaks it: a kill between rename and sidecar, then a false cache hit |
| FetchCache.HexSumTrims | cmd/imbhgo-fetch/main.go:207 | a stored sidecar line reads back as its sum |
| FetchCache.SumInSpaceTrims | cmd/imbhgo-fetch/main.go:207 | so does a sum with blanks, tabs and line breaks of either kind around it |
| FetchCache.CacheDir.DecompressToFile | cmd/imbhgo-fetch/main.go:224-251 | installs the whole archive or changes nothing, and leaves no temporary file |
| FetchCache.CacheDir.StoreSum | cmd/imbhgo-fetch/main.go:158-160 | the sidecar after a complete, partial or refused write |
| FetchCache.CacheDir.CachedMatches | cmd/imbhgo-fetch/main.go:200-208 | a hit if and only if the archive is present and the sidecar is the sum with nothing but white space around it |
| FetchCache.TrimSpaceIff | cmd/imbhgo-fetch/main.go:207 | trimming gives a text exactly for what is that text with white space around it |
| FetchCache.CacheDir.Fetch | cmd/imbhgo-fetch/main.go:110-165 | exactly when one undisturbed run succeeds (offline with an archive, cache hit, or every step of a checksummed install) and exactly what it leaves on disk in each case, as a run of the interleaved machine; its success online makes the next run a hit |
| ShellQuoting.PosixQuoteInContext | cmd/imbhgo-fetch/main.go:298-302 | anywhere in a line the quoted string adds exactly itself to the word in progress |
| ShellQuoting.PosixQuoteRoundTrip | cmd/imbhgo-fetch/main.go:298-302 | for every string, quote removal gives one word equal to it |
| ShellQuoting.EvalExports | cmd/imbhgo-fetch/main.go:286-296 | eval of the printed line leaves exactly the value in the variable |
| ShellQuoting.PowerShellRoundTrip | cmd/imbhgo-fetch/main.go:304-307 | for every string, undoubling quotes gives it back |
| ShellQuoting.PowerShellAssigns | cmd/imbhgo-fetch/main.go:291-292 | the printed PowerShell line assigns exactly the value |
| ShellQuoting.CmdSets | cmd/imbhgo-fetch/main.go:288-290 | the printed cmd.exe line sets exactly the value |
| ShellQuoting.LdflagsSplitIff | cmd/imbhgo-fetch/main.go:273-282 | cmd/go reads back -L<dir> and -limbhgo if and only if dir has no quote when it has a blank, and no line break when it has none |
| ShellQuoting.FlagsReachTheLinker | cmd/imbhgo-fetch/main.go:253-302 | in each of the three shells, reading the printed line and splitting its value gives -L<dir> and -limbhgo if and only if dir has no quote when it has a blank, and no line break when it has none |
| ShellQuoting.QuotingThePathFails | cmd/imbhgo-fetch/main.go:273-275 | quoting only the path fails for every path with a blank |
| Wire.PutUint64 | db.go:157-158 | writes the eight bytes in place and nothing else |
| Wire.FrameIngest | ingest.go:44-47 | the request is the id and the body, and split_req gives both back |
| Wire.FrameStream | db.go:154-159 | the request is both ids and the payload, and split_stream_req gives all three back |
| Wire.LittleEndian | db.go:157-158 | eight bytes are the base-256 digits of the number, lowest first |
| Wire.SplitReqInverse | rust/src/lib.rs:261-267 | a request parses as an id and body if and only if it is their framing |
| Wire.SplitStreamReqInverse | rust/src/lib.rs:544-551 | a request parses as two ids and a payload if and only if it is their framing |
| Wire.EncodeReceipt | rust/src/lib.rs:271-281 | the Go decoder reads every field as encoded, a missing LSN as 0 |
| Wire.ReceiptLayout | rust/src/lib.rs:269-281 | which of the 26 bytes holds which field |
| Wire.DecodesEveryRecord | ingest.go:31-42 | what the decoder makes of any bytes: short ones are an error, any non-zero flag byte is set |
| Wire.ReceiptRoundTrip | ingest.go:31-42 | the same with any bytes after the record |
| Wire.ReceiptsTell | rust/src/lib.rs:276-278 | different receipts encode differently: a missing LSN is unambiguous |
| Wire.RecordRoundTripIff | ingest.go:31-42 | every 26-byte record decodes, and re-encodes to itself if and only if its flag bytes are 0 or 1 |

## Left out

- imbh itself (SQL, segments, WAL, compaction, PromQL, LogQL, TraceQL): a query is a given finite or failing sequence of batches; paging and tailing work on a given ordered result.
- sable's admission control (`SetMaxInFlight`, `TryIngest*`) and its scheduling: only the channel and handle contract is modelled.
- Fairness and real time: the theorems are safety statements, plus the bounded settling of a closed stream.
- RowsCursor.Rows.Next: stated for pulls that return; that a parked one does return is up to the engine and sable.
- Concurrent use of one `Rows`: the source forbids it, so each cursor has one goroutine; different cursors interleave freely.
- Shells.ImportFailedKeeps: what a failed import does to the buffers depends on arrow-go; only "shell freed once, buffers at most once" is stated.
- Address reuse: an address stands for one allocation, so a double free shows up in the ledger instead of hitting a recycled box.
- Counter wrap-around at 2^64, mutex poisoning and panics.
- Arrow type dispatch (`stringAt`, `int64At`, `bytesAt`, `float64At`) and NaN: cells are values, columns are sequences.
- A stream op whose request is shorter than 16 bytes returns without storing anything; no caller frames one (`Wire.FrameStream`).
- JSON encodings: the resume cursor is an opaque token that round-trips to a natural number, and the metadata is always stored when the handler gets that far.
- Paging over data that changes between two pages, and keyset cursors: the walk is over a fixed result.
- LogTail.NoSkipIffClean: the limit is the one in effect; the engine's default for `Limit` 0 is not part of this model.
- `sort.Slice` as an algorithm: a sort function with the same result stands for it, which `Ordering.AscendingUnique` justifies.
- HTTP, zstd and SHA-256: functions of the environment, the hash known only to give 64 hex digits; rename is atomic and a crash loses no completed write.
- `parseSums`, version and libc detection, and the human-readable output of `imbhgo-fetch`.
- cmd.exe's own reading of a `set` line beyond taking the rest literally (percent signs, carets).
- ShellQuoting.PowerShellRoundTrip: reads a doubled straight quote as the source describes; PowerShell's typographic quotation marks are not part of this model.
- Double quotes, expansions and operators in the POSIX reader: it gives up on them, and no printed line holds one outside quotes.
- Builders and operations that only copy fields (`ops.go`, `admin.go`, `discovery.go`, `traces_search.go`, the query builders): easy members only.
- `proto-cdata`, link files, scripts and examples.
