# Verification of millpond's write path and catalog maintenance

millpond consumes Kafka topics and writes them into a table of a lake. This project models the parts of it
where a lost answer, a late request, a crash or a concurrent change of the table could lose or duplicate
records, and proves that they do not, or exactly when they do not.

* **Idempotent publication.** `HoglakeSink` is the sink: it caches a table's shape, prepares an upload, holds the
  prepared request across retries and replays it, gives it up on an answered refusal and rebuilds it when the
  destination moved. It runs against `Catalog.Service`, which is the server (`Lake`), the network and the client
  library's cache. Any number of steps of everybody else (alters, drops, creates, foreign commits, expiry, clock
  ticks, late deliveries of any request ever sent) can happen around every request. `WriteLadder` is the retry
  loop, `RetryBudget` its clock, `Delivery` the consume loop with its shutdown path and restarts, and `Backlog`
  what a flush owes the topics.
* **Catalog maintenance.** `ExpireSnapshots`, `DropLeaf` and `InlineTables` are the three mutating maintenance
  algorithms, with other sessions between batches or between the statements of one transaction.
* **The include set.** `IncludeValues` is the polled keep-filter with its damped removals, over histories of polls.
* **Supporting algorithms.** `PartitionFanout`, `OffsetsLine`, `FlushKey`, `PartitionSpec`, `VariantSource` with
  `VariantCast`.

The sink, the service, the consume loop, the poller and the maintenance sessions are classes whose methods
update their fields, as in the source; server states, histories and texts are values. `Lake.Evolves` is what
time does to a server state, and every promise of the sink is about the state it started from and the state it
leaves, whatever happened in between. That work gets done is stated about a service that is `calm` and a session that
is `quiet`: nobody else acts, and every request is answered. Each step of the sink says what it then comes to, up to
`Write`, the ladder and the final flush. A crash is an attempt that fails and is followed by nothing: each request
of the sink may fail, and the ladder may stop after any attempt, so it can come after any request.

## What the proofs found

* **Once over all incarnations needs binding refusals.** Per table incarnation a range is published at most once
  in every run. Over a drop and recreate within one ladder this holds if a plain 409 or 422 binds every identical
  resend, which the comments assume (`millpond/hoglake.py:1679-1686`). From every state in which a request can
  still publish, one script puts its ranges into both incarnations if refusals do not bind, and only into the
  second if they do (`Hazards.RefusalsMustBind`).
* **The layout check has a gap.** If no partitioning but a sort order is configured, a sort-only declaration
  adopts whatever partition spec a concurrent alter left behind, and the check after it skips the unset half
  (`millpond/hoglake.py:2368-2408`). `Reconciliation.AcceptedMeansDeclared` shows that these are the only
  configurations for which a positive verdict does not pin the spec. Likewise a configuration with a partitioning and
  no sort order can end up with a foreign sort order (`Reconciliation.AcceptedMeansSorted`).
* **A slow prepare can misfile.** The shape cache keeps the spec of the tuples as new as the conflict basis only up
  to the prepare. Others can misfile a row exactly if the shape's age at its check plus the delay until the client
  library's read reaches half the retention (`Hazards.MisfilesExactly`). The sink checks at an age under a quarter, so
  a request built in less than a quarter is safe: in every run, every file of such a publication stands under the
  tuple of its rows in the spec live at its commit (`Delivery.NoRowMisfiled`).
* **A transient error on an add loses the column's values for the flush.** `_add_column` drops the column on any error
  class of the client library: a 503, a request that never got a status, an unreadable answer to an alter that
  applied (`millpond/hoglake.py:2968-2971`). The offsets are then committed over the values. Besides a column that
  is gone from the table at the commit, the column's own failed add while that very request was built is the only way
  in which a value of a writable column can be missing from the lake (`Delivery.NoRecordLost`).
* **A 404 on a commit is replayed, not re-ensured.** `is_retryable` says that the next attempt re-ensures a dropped
  table (`millpond/hoglake.py:399-400`). That holds for a flush without an identity, whose next request only names a
  table resolved in that attempt. With an identity the payload stays held, and no attempt resolves the table or lets
  go of the payload until somebody else has created one (`HoglakeSink.Sink.Write`, `WriteLadder.WriteWithRetry`).
* **A bridged file is not examined again.** The comment in `expire_snapshots` says that a file kept alive by a
  bridging snapshot is re-examined when that snapshot expires. It is only examined in the batch that holds its end.
  An ended file can stay for good under some cutoffs exactly if a snapshot between its begin and its end is newer
  than the snapshot of its end (`ExpireSnapshots.LeaksExactly`); otherwise it goes in every history exactly with its
  end (`ExpireSnapshots.FileDropsExactly`).
* **A late delete vector is missed.** Of the rows a drop ends, exactly those have a live delete vector afterwards that
  had one at the transaction's baseline read; none, if nothing was committed between its check and that read
  (`DropLeaf.DropIsWhole`). Whenever a drop would go through undisturbed, a vector committed in between goes
  unnoticed (`DropLeaf.LateVectorIsMissed`).
* **An inlined table's name is not compared with its key.** Two registry entries with one name let an orphan's drop
  take a reachable table. A page cannot take one exactly if no orphan ahead of its cursor shares its empty table's
  name with a reachable entry (`InlineTables.SharedNameHazard`); with unique names none does.
* **A cast can read a column the scan has not seen.** The scan for unshreddable integers looks at the last column of
  a name, the cast reads the first; and the hidden column is read by its name, which a column of the batch can have
  taken. For every layout of a batch, a source's cast is safe for all values exactly if its first and last column
  coincide or the first is not text, and no text column has taken the hidden name of a text source
  (`VariantCast.SafeExactly`). When it always reads the coerced source column is decided likewise
  (`VariantCast.OwnExactly`). A column of the batch that has the very name of a hidden one does not land at all
  (`VariantCast.ColumnsLandExactly`).
* **The key text is injective even for topics with a colon**; only a newline in a topic breaks it
  (`FlushKey.NewlineTopicsCollide`).
* **The emptied-set backstop of the poller is unreachable with or without pins**
  (`IncludeValues.NeverEmptied`); its comment claims this only with pins.
* `SAFE_IDENTIFIER` accepts a name with one trailing newline, because `$` matches before it (`Names.SafeIdentifier`).

## Model

| member | source | states |
|---|---|---|
| Lake.DeliverKeeps | millpond/hoglake.py:1794-1834 | one delivered commit is judged by receipt, then incarnation, then conflict window: it publishes at most its own request and only if that was not spent, answers truthfully for good, and any answer but the first two means no receipt exists; an expired conflict window is not judged |
| Lake.RunKeeps | millpond/hoglake.py:1924-1939 | every run of deliveries, alters, drops, creates, expiry and ticks keeps the server valid and only ever adds |
| Lake.SpentForGood | millpond/hoglake.py:1836-1839 | a request that can no longer publish never can again, because receipts, alters, the floor and dead incarnations only accumulate |
| Lake.GroundedForGood | millpond/hoglake.py:1807-1819 | a spec read at a basis is the live table's spec for as long as the conflict window from that basis is empty |
| Lake.OncePerIncarnation | millpond/hoglake.py:1391-1407 | in every run, two publications of the same offset ranges into the same table incarnation are the same publication |
| Catalog.Service.PrepareAppendTables | millpond/hoglake.py:1566-1591 | the request is the draft pinned to the expected incarnation and to the snapshot of the library's cached shape, which is read anew only when half the retention has passed; it records when that shape was resolved; a calm service prepares a draft for the table as it is, under an unused key, into a request it would publish |
| Catalog.Service.CommitPrepared | millpond/hoglake.py:1694-1736 | a send that returned left its own receipt, a reused key has another's, an answered refusal has none and is spent if it is typed or refusals bind; a transport failure judges nothing and keeps the handle |
| Catalog.Service.Wire | millpond/hoglake.py:1670-1677 | a request may be lost, delivered with its answer lost, or delivered late; an answer that does arrive means what it says |
| Reconciliation.AcceptedMeansDeclared | millpond/hoglake.py:2309-2408 | a positive layout verdict pins the partition spec to the configured one exactly if a partitioning or no sort order is configured |
| Reconciliation.ForeignSpecAccepted | millpond/hoglake.py:2368-2408 | for every sort-only configuration, shapes exist for which a foreign partition spec is accepted |
| Reconciliation.AcceptsExactly | millpond/hoglake.py:2335-2387 | the check refuses exactly the tables that lack a configured partition column or have another partitioning or, with its columns all there, another sort order; declaring what a compatible table lacks passes, and nothing is declared exactly if it lacks nothing |
| Reconciliation.AcceptedMeansSorted | millpond/hoglake.py:2335-2408 | a positive verdict pins the sort order, column by column ascending with nulls last, exactly if a sort order or no partitioning is configured |
| PartitionFanout.PartitionGroups | millpond/hoglake.py:687-742 | the masks and filters of the algorithm compute the per-row fan-out; each group stands under a tuple whose i-th entry is the i-th field's transform of the value in that field's own column, null if the row has none, for every row it holds, and the groups together are the batch |
| PartitionFanout.TupleFits | millpond/hoglake.py:709-725 | a row has exactly one tuple that fits it field by field, its own |
| PartitionFanout.FanoutFits | millpond/hoglake.py:709-742 | every group of a fan-out stands under a tuple that fits each of its rows, and under none without a spec |
| PartitionFanout.GroupHoldsItsRows | millpond/hoglake.py:734-741 | a group holds each row of its own transform tuple as often as the batch does and no other row, null matching null |
| PartitionFanout.DistinctByFirstOccurrence | millpond/hoglake.py:699-732 | groups come out in the order in which their tuples first occur |
| PartitionFanout.GroupKeepsRowOrder | millpond/hoglake.py:699-741 | the rows of a group stand in the batch at ascending positions |
| PartitionFanout.FanoutConservesRows | millpond/hoglake.py:687-742 | the groups together hold exactly the batch's rows |
| PartitionFanout.FanoutGroup | millpond/hoglake.py:726-742 | every group of a partitioned fan-out is non-empty and holds only rows of its tuple |
| PartitionFanout.Mask | millpond/hoglake.py:736-740 | and-ing null tests and null-filled comparisons column by column equals comparing whole tuples |
| HoglakeSink.Sink.constructor | millpond/hoglake.py:1099-1128 | a new sink holds nothing, has booked nothing and satisfies every invariant |
| HoglakeSink.Sink.ReconcileAdopted | millpond/hoglake.py:2335-2387 | a shape is recorded as checked only after a positive verdict on the shape the next flush will build from, and stays in step with the library's cache; a partitioning that is there is not declared again; on a calm service a compatible table gets what it lacks |
| HoglakeSink.Sink.TableInfo | millpond/hoglake.py:2604-2693 | the shape handed out has a positive verdict, was read less than a quarter of the retention before, and is in step with the library's cache, even if evolution keeps re-stamping it; on a calm service it is handed out |
| HoglakeSink.Sink.EnsureTable | millpond/hoglake.py:2164-2249 | a handle is stored only after the layout was checked, declared and found as declared, or not configured; a retryable failure leaves a cache from which the next attempt checks again; on a calm service it succeeds, whether the table is there with a compatible layout or is missing and gets created with the configured one |
| HoglakeSink.Sink.EvolveAndAlign | millpond/hoglake.py:2695-2745 | columns that were live already are never dropped from the batch and no others appear; every column that was not live is asked for in this call; what is kept was there or its add was not refused, and each dropped one had an add of its own that failed with an error of the client library, transient ones included; on a calm service all of them are kept and live; a refusal for files without field ids fails the flush for good |
| HoglakeSink.Sink.AddColumn | millpond/hoglake.py:2932-2971 | what one add comes to, by the error of its alter: kept, left out, what a new read says after a race, or a failed flush |
| HoglakeSink.Sink.Prepare | millpond/hoglake.py:1458-1664 | the request registers exactly the fan-out of the rows, narrowed to the checked shape's columns, under that shape's spec, which is the configured one where the check binds it; it is sendable, so built in less than a quarter of the retention it carries the spec of the shape it is judged by; a failed prepare books what it uploaded; on a calm service it succeeds, and the request would be published |
| HoglakeSink.Sink.PrepareAligned | millpond/hoglake.py:1236-1262 | a refused alignment is answered by one new read and one more prepare: a refusal that is raised is that of the second prepare; the uploads of both are booked |
| HoglakeSink.Sink.DiscardPrepared | millpond/hoglake.py:1993-2012 | giving up a payload books each of its objects once under the given reason |
| HoglakeSink.Sink.DestinationMoved | millpond/hoglake.py:1865-1898 | the payload and the shape are given up, its objects booked under the reason of the refusal, a recreation drops the identity too, and the caller gets a retryable stop |
| HoglakeSink.Sink.CommitPrepared | millpond/hoglake.py:1666-1769 | a return means a receipt under the key, and reports the rows exactly if the receipt is for this request, else zero; a raise keeps the payload for a replay, a 404 included, or drops it, and then the table lives, there is no receipt and with binding refusals never will be; a calm service that can publish it does |
| HoglakeSink.Sink.Conclude | millpond/hoglake.py:1706-1769 | success and the reused key return, the first with the rows and the second with zero; refusals drop the payload and book each of its objects under their own reason, everything else keeps it |
| HoglakeSink.Sink.BookWritten | millpond/hoglake.py:1751-1769 | the objects of a commit that returned are counted as written, and every one of them is registered by a publication |
| HoglakeSink.Sink.Replay | millpond/hoglake.py:1214-1224 | a held payload is sent verbatim and never rebuilt; the flush stays contained and a return closes it; while the table is gone a raise keeps the payload; a calm service that can publish it does |
| HoglakeSink.Sink.Write | millpond/hoglake.py:1149-1267 | only requests holding the flush's rows under the configured spec are sent, each row with every value of a writable column that the table has, unless the column's own add failed; a request that was not held before was built within the call; if it returns and did not skip, the flush is in the lake under its key; a contained flush stays contained and is closed on return; a held request is replayed and the table not resolved until somebody creates it, and with nothing held only a table that may be live is written to; nothing is superseded unless another flush's payload was held; on a calm service that welcomes the sink and was never sent these ranges, a sink that has just started or was reset publishes all rows, and so does a replay that can still be published; a reserved column is refused before anything is asked |
| Flush.ScreenExactly | millpond/hoglake.py:1149-1208 | a batch is refused exactly for the reserved column, skipped exactly if it has no row or only unwritable columns, and otherwise written with every writable column and the timestamp |
| Names.OrdinaryNamesAreWritable | millpond/hoglake.py:655-684 | a name of up to 128 letters, digits and underscores, no digit first, is kept exactly if it does not start with the reserved prefix in any case |
| HoglakeSink.Sink.ResetCaches | millpond/hoglake.py:1269-1303 | the destination is forgotten and the held payload is untouched |
| HoglakeSink.Sink.Close | millpond/hoglake.py:1305-1311 | a payload still held is booked as a shutdown orphan; nothing is claimed about whether it was published |
| Flush.FanoutCarries | millpond/hoglake.py:1458-1664 | a payload registered from a fan-out holds exactly the rows fanned out, each file under the tuple of all its rows |
| Flush.PublishedRowMeans | millpond/hoglake.py:1528-1530 | a published row has its coordinates, and every value of a writable column, unless the column's own add failed while the request was built, or the table lacked it at the commit although it once had it or did not refuse it while the request was built |
| Flush.FiledUnderLiveSpec | millpond/hoglake.py:2549-2566 | every file of a publication built in less than a quarter of the retention stands under the tuple of each of its rows in the spec that was live at its commit |
| Flush.CommitKeepsRequest | millpond/hoglake.py:1666-1736 | a commit sent while the table is gone, and nobody creates it, keeps the request whatever the answer |
| Flush.SendContained | millpond/hoglake.py:1670-1686 | after one send of the held request at most one publication of its ranges exists; a receipt closes the flush, a refusal for good leaves nothing of it in flight |
| Flush.CommitGuards | millpond/hoglake.py:1213-1224 | a replay keeps the flush contained, and a return closes it |
| Flush.BuildGuards | millpond/hoglake.py:1225-1267 | building a new request while nothing else of the flush can publish keeps the flush contained |
| Flush.ClosedForGood | millpond/hoglake.py:1924-1939 | a closed flush stays at one publication whatever is delivered later |
| Flush.ReceiptMeansOnePublication | millpond/hoglake.py:1904-1911 | a receipt exists exactly if its key was published, and a key is published once |
| Flush.CommittedAreRegistered | millpond/hoglake.py:1751-1755 | objects are booked as written only when a publication registers them |
| Flush.Book | millpond/hoglake.py:541-581 | giving the next objects one fate keeps the books balanced, whatever the fate |
| Flush.BooksAddUp | millpond/hoglake.py:1592-1638 | objects uploaded are the ones counted as written, the ones counted as orphaned and the ones held, each once |
| WriteLadder.WriteWithRetry | millpond/main.py:671-780 | whatever mix of attempts: requests sent are the flush's own, it stays contained, a return closes and lands it, the payload survives resets and a table that stays gone, an accepted configuration ends within the liveness budget, and a retryable failure is given up only after the last attempt or when a pause it can have drawn leaves no room for another; every attempt after the first starts from forgotten caches; with nothing in its way the first attempt returns all rows |
| Errors.PermanentClasses | millpond/hoglake.py:383-491 | class by class, which failures end the ladder at once |
| Errors.CommitVerdicts | millpond/hoglake.py:430-518 | a judged commit is given up and retried, as a rebuild, exactly if the destination moved or it was a plain conflict; one that was not judged keeps its request and is retried, as a replay, unless its answer is unreadable or a client error |
| WriteLadder.ProgressContinues | millpond/main.py:688-691 | what one attempt keeps, any number of attempts keeps |
| WriteLadder.ExactlyOnce | millpond/hoglake.py:1670-1686 | a ladder of the method, with nothing in flight before it and binding refusals, leaves its ranges published at most once over all incarnations, and exactly once, now and later, if it returned |
| WriteLadder.NeverSentIsSettled | millpond/hoglake.py:1670-1686 | ranges nothing was ever sent for have nothing in flight |
| WriteLadder.OncePerIncarnationAlways | millpond/hoglake.py:1915-1922 | per incarnation this holds for any number of ladders and processes and without the assumption |
| RetryBudget.DelayBounds | millpond/main.py:592-629 | every pause is at least the curve and at least the hint up to the cap, at most the cap, and without a hint at most what the startup model charges |
| RetryBudget.CurveIs | millpond/main.py:592-629 | the curve is 1, 2, 4, 8, 16 seconds and then the cap of 30 |
| RetryBudget.JitterSpreads | millpond/main.py:609-629 | of two pods refused at once the one that draws more waits longer, unless both wait the cap |
| RetryBudget.PauseOnTime | millpond/main.py:740-769 | a pause the deadline lets through leaves room for the attempt it leads to |
| RetryBudget.EndsInTime | millpond/config.py:840-936 | a ladder of an accepted configuration whose attempts keep to the reserve ends within 480 seconds for every sequence of hints, and without hints within the worst case computed at startup |
| RetryBudget.PriceIsReached | millpond/config.py:840-851 | up to six attempts the price of a ladder is exactly the time of its slowest run |
| RetryBudget.AcceptedExactly | millpond/config.py:908-936 | such a configuration is accepted exactly if that run keeps within 480 seconds |
| RetryBudget.NeverCut | millpond/main.py:740-769 | the deadline cuts no ladder without hints that is priced at 450 seconds or less |
| RetryBudget.HintsOverrunTheModel | millpond/config.py:882-908 | the default configuration is accepted, and without the deadline six attempts with floored pauses would overrun it |
| Backlog.ReceivedKeeps | millpond/main.py:1047-1071 | consuming a message keeps the buffer exact: each kept record since the last flush is buffered once and within its partition's tracked span |
| Backlog.Flatten | millpond/main.py:819-822 | the tracked spans become one sorted sequence of ranges, whatever order the dict yields them in |
| Backlog.MadeIsHonest | millpond/main.py:783-822 | a request named after the tracked spans holds every kept record in them |
| Backlog.ReceiptCovers | millpond/hoglake.py:1904-1922 | a receipt under a key that names a range means that the kept records of the range are in the lake, whichever process's request it was written for |
| Backlog.FlushAccounts | millpond/main.py:1083-1115 | after a flush returned, every buffered record is in the lake or had no column the server takes |
| Backlog.FlushCovers | millpond/main.py:1083-1115 | then everything consumed so far is accounted for |
| Backlog.CommitCovers | millpond/main.py:849-874 | committing the offsets after the flushed ones keeps every record below a committed offset accounted for, however much of the commit was applied |
| Delivery.ServedWorld | millpond/main.py:839-845 | requests of a buffer's flush, however many, leave every request honest and everything committed covered |
| Delivery.Worker.Flush | millpond/main.py:825-874 | offsets are committed only after the write returned; a failed flush leaves the buffer and a payload of its own for the next try; with nothing in its way it is flushed and committed |
| Delivery.Worker.CommitOffsets | millpond/main.py:849-874 | each of three attempts may be applied in part, and all three are made unless one is acknowledged; what is committed stays covered |
| Delivery.Worker.Receive | millpond/main.py:1047-1071 | offsets are tracked for non-null values only, before conversion and filters |
| Delivery.Worker.Drain | millpond/main.py:1047-1071 | the messages of one consume are taken one by one, errors and unassigned partitions skipped |
| Delivery.Worker.Round | millpond/main.py:1080-1115 | a buffer that holds a row and is large or old enough is flushed, with nothing in its way emptied; any other round sends and commits nothing |
| Delivery.Worker.Run | millpond/main.py:1027-1175 | one process keeps the delivery promise to its end and never books a superseded upload; unless killed it ends holding nothing |
| Delivery.Worker.Shutdown | millpond/main.py:1121-1175 | the final flush runs exactly if a row is buffered and that batch did not fail for good: with nothing in its way its offsets are committed, and otherwise nothing is sent or committed; it may replay the payload held for it |
| Delivery.Lifetimes | millpond/main.py:1027-1175 | over any number of crashes and restarts no kept record below a committed offset is lost, every request is honest and every file stands under the tuple of its rows |
| Delivery.NoRecordLost | millpond/main.py:1083-1115 | so each such record with a writable column stands in the lake with its coordinates and every value of a writable column, but for a column whose own add failed while that request was built, and one the table lacked at that commit although it once had it or did not refuse it |
| Delivery.NoRowMisfiled | millpond/hoglake.py:2549-2566 | and each file of a publication built in less than a quarter of the retention stands under the tuple of its rows in the spec live at its commit |
| FlushKey.SameNameSameFlush | millpond/hoglake.py:1449-1456 | the hashed text of two flushes to one destination is equal exactly if the incarnation in its header and the set of ranges agree, in any order, for topics without a newline |
| FlushKey.NameIsKey | millpond/hoglake.py:1449-1456 | the text tells flushes apart exactly as the pair of incarnation and set of ranges does, for one destination and identifiers of one line |
| FlushKey.LineInjective | millpond/hoglake.py:1453-1453 | one line names one range, colons in the topic included |
| FlushKey.SortCanonical | millpond/main.py:819-822 | sorting makes the ranges independent of the order of the dict, and of nothing else |
| FlushKey.NewlineTopicsCollide | millpond/hoglake.py:1449-1455 | a newline in a topic lets one range read as two |
| Hazards.RefusalsMustBind | millpond/hoglake.py:1679-1686 | from every state in which a request can still publish, the same script publishes its ranges into two incarnations if a plain refusal does not bind, and into one if it does |
| Hazards.MisfilesExactly | millpond/hoglake.py:2549-2566 | others can get a row filed under a tuple that is not its own in the live spec exactly if the shape's age at its check plus the delay until the prepare reaches half the retention |
| OffsetsLine.OffsetsLine | millpond/hoglake.py:819-860 | the full line if and only if it fits in the limit in bytes, else the longest prefix that fits with its own marker, and within the limit whenever the head with the zero-kept marker is |
| OffsetsLine.CutStep | millpond/hoglake.py:843-850 | keeping one more range makes the line longer even when the dropped count loses a digit |
| OffsetsLine.GreedyIsLongest | millpond/hoglake.py:843-860 | stopping at the first range that does not fit misses none that would |
| OffsetsLine.FormsDiffer | millpond/hoglake.py:828-836 | a full line is never a truncated one |
| OffsetsLine.WholeReads | millpond/hoglake.py:819-839 | a full line read back word by word gives its ranges in order, each with its own partition, first and last offset, and then their number |
| OffsetsLine.CutReads | millpond/hoglake.py:843-860 | a truncated line read back gives the ranges it kept, in order, and how many it dropped |
| OffsetsLine.EncodedDecodes | millpond/hoglake.py:838-850 | a character counts as many bytes as its UTF-8 encoding has, which decodes to it |
| PartitionSpec.SplitTopLevelCommas | millpond/config.py:716-733 | the loop computes the pieces between commas outside parentheses, stripped, without the blank ones |
| PartitionSpec.ParseHoglakePartitionBy | millpond/config.py:739-800 | the loop computes the parse, stopping at the first refused or repeated entry |
| PartitionSpec.PrintParse | millpond/hoglake.py:2451-2454 | printing any list of distinct valid entries and reading it again gives the same triples |
| PartitionSpec.ParsePrint | millpond/config.py:739-800 | whatever is accepted is a list of distinct valid entries whose printed form reads the same |
| PartitionSpec.WrittenParses | millpond/config.py:739-800 | however the entries are written, bare columns, calls and buckets with any space around every token and names in any case, the setting is read as exactly those fields if they are distinct and refused if not |
| PartitionSpec.BlankIsNoEntry | millpond/config.py:716-733 | a blank piece, as a trailing comma leaves it, is no entry |
| PartitionSpec.UnderscoreSkipped | millpond/config.py:770-784 | a single underscore between the digits of a bucket count is skipped |
| PartitionSpec.SignedRead | millpond/config.py:770-784 | a sign in front of it counts |
| PartitionSpec.EntryPasses | millpond/config.py:716-733 | an entry passes through the split as one piece with its inner comma |
| VariantSource.WalkAt | millpond/ducklake.py:148-161 | place by place, an unshreddable integer becomes its decimal text and everything else stays what and where it was |
| VariantSource.WalkChanges | millpond/ducklake.py:146-163 | the flag says exactly whether there was something to rewrite |
| VariantSource.WindowIsFlagged | millpond/ducklake.py:100-112 | the decimal text of every integer above INT64 and up to UINT64 trips the prefilter wherever it stands |
| VariantSource.TimestampsPass | millpond/ducklake.py:107-112 | nineteen digits that do not start with a nine do not trip it |
| VariantSource.CoerceIsSafe | millpond/ducklake.py:132-164 | the coerced text holds no such integer, and the text is unchanged exactly if it held none |
| VariantSource.CoerceBecomes | millpond/ducklake.py:132-164 | null and text that is no document stay; any other text is rewritten to text of a document that differs from it, place by place, only in the decimal text of integers in the window |
| VariantSource.UnfixedIsSafe | millpond/ducklake.py:196-203 | a column the two stages leave alone holds none |
| VariantSource.NeedsFixExactly | millpond/ducklake.py:190-210 | a source gets a hidden column exactly if its column holds such an integer |
| VariantSource.SanitizeVariantSources | millpond/ducklake.py:184-214 | the batch's own columns stay first and untouched, exactly the sources whose last column of their name needs it get a hidden column of its coerced values, and the map names it; each text of a hidden column is the rewriting of the source's |
| VariantSource.BuildInsertSelect | millpond/ducklake.py:248-267 | the loop with its set of projected sources computes the projection: every column that is not hidden, and the cast of a source after the first column of its name |
| VariantSource.CompanionsAre | millpond/ducklake.py:248-266 | a source is cast exactly if it is the configured one of its name and a column of that name is present, and from its hidden column or else the first of that name |
| VariantSource.SelectedLists | millpond/ducklake.py:248-266 | every present column is listed once and in order |
| VariantSource.CastsDiffer | millpond/ducklake.py:255-266 | no source is cast twice |
| VariantCast.ReadsAre | millpond/ducklake.py:597-604 | what the INSERT casts for a source is the first column of its name, or, if the last one needs a fix, the first column that has the hidden name |
| VariantCast.SafeExactly | millpond/ducklake.py:184-266 | for every layout of a batch and every source, no batch of the layout makes its cast meet an unshreddable integer exactly if the first and last column of its name coincide or the first is not text, and no text column has taken the hidden name of a text source |
| VariantCast.UnguardedBreaks | millpond/ducklake.py:184-266 | each layout that violates this has a one-row batch, named by the layout, whose cast meets the integer |
| VariantCast.OwnExactly | millpond/ducklake.py:184-266 | for every layout, every batch of it has the first column of the source's name cast, coerced value by value, exactly if that column is alone and the hidden name free, or there is nothing to coerce |
| VariantCast.ColumnsLandExactly | millpond/ducklake.py:245-267 | the columns of the batch are all selected, once and in order, exactly if none has the very name of a hidden one |
| IncludeValues.HttpIncludeValues.PollOnce | millpond/include_values.py:241-363 | the method with its loops computes one poll of the specification |
| IncludeValues.PollExactly | millpond/include_values.py:241-363 | after any history, what the next poll comes to and leaves served, in terms of what it read and of the streaks: refused for its type, refused as empty, refused as a sweep of more than one value and more than half of the governed ones, or accepted, and then exactly the values whose streak it completes leave |
| IncludeValues.FailedExactly | millpond/include_values.py:90-100 | a poll fails exactly if nothing was fetched or an element is nested, and then changes nothing; an array is read as integers if it holds nothing else and else all as strings |
| IncludeValues.Create | millpond/include_values.py:154-165 | pins outside the bootstrap set are refused |
| IncludeValues.ReplayKeeps | millpond/include_values.py:241-363 | over any history pins never leave, and a non-empty set stays non-empty and of one type |
| IncludeValues.CountersAreStreaks | millpond/include_values.py:294-306 | the counters are the numbers of latest accepted polls that omitted the value and left it served; failed and refused polls count for nothing |
| IncludeValues.LeavesExactlyWhenConfirmed | millpond/include_values.py:294-363 | a served value leaves exactly at a poll that reads an array of the served type without it, completes its configured streak, and removes at most half of the governed values or this one alone; a pin never does |
| IncludeValues.StreakMeans | millpond/include_values.py:177-179 | a streak of n is n successive accepted polls that found the value served, omitted it and left it served |
| IncludeValues.AdditionsApply | millpond/include_values.py:292-361 | right after a poll that fetched values of the served type all of them are served, a bulk refusal included |
| IncludeValues.RemovalBound | millpond/include_values.py:317-349 | one poll removes at most one value or half of what the endpoint governs, and a poll that is not accepted removes nothing and moves no counter |
| IncludeValues.NeverEmptied | millpond/include_values.py:308-317 | a non-empty set is never emptied once the unconditional refusal has passed, so the backstop is unreachable |
| ExpireSnapshots.SurvivorsSeeTheSame | tools/ducklake_maintenance.py:487-510 | after any history of selections and transactions of batches with any cutoffs and of commits in between, every surviving snapshot sees exactly the files and delete vectors it saw, and the head survives |
| ExpireSnapshots.ScheduledExactlyOnce | tools/ducklake_maintenance.py:554-583 | every dropped file is scheduled for deletion exactly once and no other file is |
| ExpireSnapshots.OneCutoffDropsExactly | tools/ducklake_maintenance.py:467-588 | with one cutoff, however cut into batches, runs and crashes, a file is dropped exactly if its end is expired and no snapshot still there sees it |
| ExpireSnapshots.FileDropsExactly | tools/ducklake_maintenance.py:487-510 | a file whose bridging snapshots are no newer than its end is dropped in every history, whatever the cutoffs, exactly if its end is expired |
| ExpireSnapshots.LeaksExactly | tools/ducklake_maintenance.py:487-510 | for every well-formed catalog, an ended file can outlive every snapshot that sees it exactly if a snapshot between its begin and its end is newer than the end's |
| ExpireSnapshots.StuckForGood | tools/ducklake_maintenance.py:500-510 | a file that outlived its end stays, whatever is committed or expired later |
| ExpireSnapshots.MonotoneDropsExactly | tools/ducklake_maintenance.py:467-588 | so with snapshot times that follow the ids and any cutoffs, every file is dropped exactly if its end is expired |
| ExpireSnapshots.ChosenAre | tools/ducklake_maintenance.py:446-485 | a batch takes old snapshots, smallest ids first, and never the head |
| ExpireSnapshots.ChosenExactly | tools/ducklake_maintenance.py:467-482 | a snapshot is taken exactly if it is old, below the head, and fewer than the batch size such snapshots come before it |
| ExpireSnapshots.Database.ExpireSnapshots | tools/ducklake_maintenance.py:440-588 | the loop is a history of selections of the batch size and transactions with its cutoff and of others' commits, inside a batch too; it ends, runs at most the given number of transactions, keeps every snapshot that is not old, and unless it crashed it stopped at that number or with nothing eligible |
| ExpireSnapshots.NothingOldLeft | tools/ducklake_maintenance.py:467-478 | nothing eligible left means that no old snapshot but a head is left |
| DropLeaf.DropIsWhole | tools/ducklake_maintenance.py:3156-3295 | a committed drop took the next snapshot id, left no selected row live, ended only rows below every cursor its UPDATE saw, took exactly their sums off the stats, and ended rows with a live delete vector exactly if they had it at the baseline read; the file counter moved by one and ended rows changed in nothing else |
| DropLeaf.VectorsAreTheBaseline | tools/ducklake_maintenance.py:3193-3228 | the vectors of the ended rows are those of the baseline read, and there are none if nobody committed between the check and it |
| DropLeaf.VerdictExactly | tools/ducklake_maintenance.py:3166-3295 | each answer is given exactly in its case, read off the catalogs the statements saw: retry, abort, skip, or done with exactly the live rows |
| DropLeaf.UndisturbedDrop | tools/ducklake_maintenance.py:3166-3295 | undisturbed, a leaf with a live row is dropped exactly if none of its rows has a delete vector, its live rows are below every cursor where that is asked for, and the stats cover them |
| DropLeaf.StatsFollowRows | tools/ducklake_maintenance.py:3266-3283 | the stats fall by exactly the records and bytes of the live rows that are gone |
| DropLeaf.Postgres.DropLeafTxn | tools/ducklake_maintenance.py:3166-3295 | statement by statement, with other sessions in between, the transaction gives the answer that the catalogs its statements saw call for, or reads as retryable because the session failed or the commit was not acknowledged; without a commit only other sessions' changes are visible |
| DropLeaf.Postgres.DropLeafWithRetries | tools/ducklake_maintenance.py:3327-3403 | however many acknowledgements are lost, the leaf is ended and taken off the stats at most once, as a whole; undisturbed, the first answer is the one |
| DropLeaf.NothingToEndTwice | tools/ducklake_maintenance.py:3251-3252 | a retry after a commit whose acknowledgement was lost finds nothing to end |
| DropLeaf.LateVectorIsMissed | tools/ducklake_maintenance.py:3193-3206 | for every catalog and selection whose drop would go through undisturbed, a delete vector committed between the check and the baseline read is not noticed |
| InlineTables.OrphanIsInvisible | tools/ducklake_maintenance.py:3837-3871 | no retained snapshot sees any version of an orphaned table |
| InlineTables.OrphanExactly | tools/ducklake_maintenance.py:3837-3871 | a table is an orphan exactly if none of its versions, none being empty, is seen from anywhere between the oldest and the newest retained snapshot |
| InlineTables.OrphanForGood | tools/ducklake_maintenance.py:3849-3852 | an orphan stays one under whatever other sessions do to versions and snapshots |
| InlineTables.CommitIsOnward | tools/ducklake_maintenance.py:3849-3852 | commits with drops, alters and creates are such changes |
| InlineTables.ExpiryIsOnward | tools/ducklake_maintenance.py:3849-3852 | so is expiry |
| InlineTables.PageIsSafe | tools/ducklake_maintenance.py:3964-4023 | a page drops only empty tables with expected names whose parents no retained snapshot sees, and deletes their entries with them |
| InlineTables.SharedNameHazard | tools/ducklake_maintenance.py:3974-4010 | no page can take the table of a reachable entry exactly if no orphan ahead of the cursor shares its empty table's name with one |
| InlineTables.PageAdvances | tools/ducklake_maintenance.py:4146-4203 | the keyset cursor strictly advances with every page that processed an entry |
| InlineTables.PastShrinks | tools/ducklake_maintenance.py:4146-4203 | so each such page leaves fewer entries ahead of the cursor, which is why the run ends |
| InlineTables.Postgres.DropInlineBatch | tools/ducklake_maintenance.py:3937-4024 | one transaction per page, all of it or nothing, with other sessions between its statements |
| InlineTables.Postgres.DropOrphanInlineTables | tools/ducklake_maintenance.py:4027-4247 | an undisturbed run finishes or reaches a bound, and runs at most the given number of pages; one that finishes removes exactly the droppable entries and leaves only the orphans it skips |
| InlineTables.BatchSizeStays | tools/ducklake_maintenance.py:3815-3830 | halving and regrowing keep the batch size between the floor and the start size, and within a quarter of the lock table above the floor; regrowing grows, and the size is the one asked for, the ceiling, or as large as the lock table allows |
| InlineTables.GivenNamesExpected | tools/ducklake_maintenance.py:3964-3981 | every name of the stem and two ids is an expected one |
| InlineTables.ExpectedExactly | tools/ducklake_maintenance.py:3715-3715 | an expected name is the stem, digits, an underscore, digits |

## Left out

- RetryBudget.EndsInTime: the time a ladder spends is taken over real numbers; floating-point rounding of the sums is not modelled.
- RetryBudget.DelayBounds: a hint is a real number, so the not-a-number header that Python's max would ignore is not modelled.
- WriteLadder.ExactlyOnce: assumes that an answered plain refusal binds every identical resend; Hazards.RefusalsMustBind shows what happens otherwise.
- HoglakeSink.Sink.Write: a column is refused or accepted by its name alone, because types are not modelled.
- HoglakeSink.Sink.EvolveAndAlign: column types, promotions, columns whose type has no mapping and the rewriting of uuid columns are not modelled; which adds fail is arbitrary, and every add is on record.
- Flush.PublishedRowMeans: the source also leaves out a column, even a live one, whose Arrow type has no mapping, and nulls text that is no UUID in a uuid column; without types neither is modelled.
- Delivery.NoRecordLost: the same two ways to lose a value are not modelled.
- HoglakeSink.Sink.Prepare: the cast to the table's column types is not modelled.
- HoglakeSink.Sink.TableInfo: the sink and the client library read the same retention and stamp one read with one time; the source stamps twice within one call.
- HoglakeSink.Sink.CommitPrepared: the reused-key marker and the alignment markers are kinds of a 422, not matched in message text.
- Delivery.Lifetimes: one process at a time owns its partitions, a group without a committed offset starts at the beginning, conversion does not raise, and conversion and filters are one fixed function over all restarts.
- OffsetsLine.OffsetsLine: sorting by partition and the other lines of the commit message.
- PartitionSpec.ParsePrint: Python's int is modelled on ASCII digits; other decimal digits are not.
- VariantSource.SanitizeVariantSources: the JSON library is two functions with two assumed facts; column lookups fold ASCII case only.
- VariantSource.BuildInsertSelect: the quoting of identifiers and the text of the statement.
- VariantCast.SafeExactly: a column that is not text counts as safe, because the scan and the source's own claim are about text; a layout with two columns of exactly one name, which Arrow's lookup by name refuses when it is a source's, is decided like any other.
- VariantSource.CoerceIsSafe: the cast is taken to read a text as the scan's JSON library does; where two JSON readers differ, for instance on a repeated key, is not modelled.
- ExpireSnapshots.Database.ExpireSnapshots: the side tables of a file (stats, partition values) go with its row and are not modelled; other maintenance is kept out by the advisory lock.
- DropLeaf.Postgres.DropLeafTxn: the empty catalog, the version pin and the isolation check; leaf selection.
- InlineTables.Postgres.DropOrphanInlineTables: dry runs, the empty snapshot table, metrics, how long a backoff sleeps; a disturbed run is promised to be safe, not to end.
- Object storage, Kafka, HTTP and Postgres themselves, the credential probe, catalog resolution, OAuth, logging and metrics other than the two counters the books rest on.
- Hashing the key's text to a UUID, which is taken to be free of collisions (section 5.5 of RFC 9562).
- Exactly once across restarts with different flush boundaries: the source states that this duplicates.
- `repair_partition_values`, `heal_orphans`, `dedup_deletions`, `find_orphans` and `compact`: SQL text and calls into engine functions.
- Arrow type inference and coercion, the DuckLake schema manager, partition assignment, backpressure, shadow mode of the include set.
