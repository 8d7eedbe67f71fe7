# akka-work-pulling: a Dafny model of the work-pulling core

The repository implements the work-pulling pattern on Akka actors.

- A `WorkDispatcher` owns a forward-only source of work items and a fixed number of `Worker` children.
- Each worker asks the dispatcher for work. It processes the item it is handed, reports the outcome, and asks again.
- A `ProcessingResult` holds the outcomes. It folds successful results into one value with a caller-supplied reducer, and counts failures per exception class.
- After each report the dispatcher calls a progress callback with the processed count, the accumulated value and the failure counts.
- Once it has replied NoMoreWork at least `numberOfWorkers` times (the declared count, which `spawnChildren` normally matches), it calls a completion callback with the same three values and stops itself.

The model has five modules:

- `Wrappers`: Option and Result. `Option` stands for Java's nullable references. `Result` stands for a constructor that may throw.
- `Messages`: the message protocol between the two actors: `GetWork`, `WorkDoneGetMore` and `WorkFailedGetMore` from workers; `Work` and `NoMoreWork` from the dispatcher. It includes the null checks in the two report constructors.
- `Results`: the `ProcessingResult` class. Specifications:
  - The accumulated value is the left fold of the reducer over every success since the base value.
  - The failure map is the tally of every reported failure class: `Tally`, with its keys equal to the reported classes and each count equal to the class's multiplicity.
  - The sum of the counts is the number of failures.
  - `Integer::sum` from the tests is modelled as 32-bit wrap-around addition, and its fold is proved equal to the wrapped integer sum.
- `Dispatcher`: the `props` validation and the `WorkDispatcher` class.
  - The work source is a sequence with a position.
  - Ghost logs keep every reply sent, and every progress and completion report as a value snapshot.
  - The class invariant ties the counters to those logs:
    - Dispatched items are exactly a prefix of the source, in order.
    - The NoMoreWork counter equals the number of NoMoreWork replies.
    - Completion fires exactly when the counter reaches the worker count, and then exactly once, with the final state.
    - Each progress report carries the count of items processed so far.
- `Workers`: the `Worker` class. Specifications:
  - It asks for work on creation.
  - It turns an outcome into its report message: a non-null success becomes `WorkDoneGetMore`, otherwise the failure becomes `WorkFailedGetMore`.
  - It stops on `NoMoreWork`.
- `Scenarios`: client runs, proved from the classes' contracts. They replay the repository's unit tests (`SingleItemSucceeds`, `SingleItemFails`, `WorkerReportsOutcomes`). They run one dispatcher with one worker over any work source until it stops (`RunWithOneWorker`). They also run two further batches that are not in the repository's tests: items [1, 2, 3] summed by one worker (`ThreeItemsOneWorker`), and one item with three declared workers (`OneItemThreeWorkers`).

## Model

| member | source | states |
|---|---|---|
| Messages.RequireNonNull | src/main/java/com/mylaesoftware/actors/ProcessingResult.java:15-16 | `Objects.requireNonNull`: succeeds exactly on a non-null value and returns it; otherwise a NullPointerException with the given message |
| Messages.NewWorkDoneGetMore | src/main/java/com/mylaesoftware/actors/WorkDispatcher.java:82-89 | the message is built exactly when the result is non-null and carries it; a null result raises NullPointerException "resultOfWorkDone must not be null" |
| Messages.NewWorkFailedGetMore | src/main/java/com/mylaesoftware/actors/WorkDispatcher.java:91-98 | the message is built exactly when the failure is non-null and carries it; a null failure raises NullPointerException "failureOfWorkDone must not be null" |
| Results.Bump | src/main/java/com/mylaesoftware/actors/ProcessingResult.java:24-27 | the map update of `addFailure`: the class's count becomes its old count (0 if absent) plus one, the class becomes a key, all other entries are unchanged |
| Results.TallyCounts | src/main/java/com/mylaesoftware/actors/ProcessingResult.java:24-27 | the failure map built by repeated `addFailure` has as keys exactly the reported classes, and each count is how often that class was reported |
| Results.TallyMonotone | src/main/java/com/mylaesoftware/actors/ProcessingResult.java:24-27 | further failures never remove a class or lower its count |
| Results.SumValuesBump | src/main/java/com/mylaesoftware/actors/ProcessingResult.java:25-26 | one `addFailure` raises the sum of all counts by exactly one |
| Results.SumValuesRemove | src/main/java/com/mylaesoftware/actors/ProcessingResult.java:10 | the sum of a count map's values splits into one entry's count plus the rest |
| Results.TallyTotal | src/main/java/com/mylaesoftware/actors/ProcessingResult.java:24-27 | the counts of the failure map add up to the number of failures reported |
| Results.SameClassSharesCounter | src/main/java/com/mylaesoftware/actors/ProcessingResult.java:25-26 | two failures of the same class, whatever their messages, land on one key and raise its count by two |
| Results.IntegerSum | src/test/java/com/mylaesoftware/actors/WorkDispatcherTest.java:195 | `Integer::sum`: a + b wrapped to 32 bits, congruent to the exact sum modulo 2^32 and equal to it when it fits in an int |
| Results.Wrap | src/test/java/com/mylaesoftware/actors/WorkDispatcherTest.java:195 | the 32-bit result of Java int arithmetic agrees with the exact integer modulo 2^32 |
| Results.WrapCongruent | src/test/java/com/mylaesoftware/actors/WorkDispatcherTest.java:195 | integers congruent modulo 2^32 wrap to the same int |
| Results.FoldIntegerSum | src/main/java/com/mylaesoftware/actors/ProcessingResult.java:20-22 | with `Integer::sum` as the reducer, the accumulated value is the base plus the sum of all successes, wrapped to 32 bits |
| Results.FoldIntegerSumExact | src/main/java/com/mylaesoftware/actors/ProcessingResult.java:20-22 | when the total fits in an int, the accumulated value is exactly base plus sum of successes |
| Results.ProcessingResult.constructor | src/main/java/com/mylaesoftware/actors/ProcessingResult.java:14-18 | starts at the base value with an empty failure map and the given reducer |
| Results.ProcessingResult.Create | src/main/java/com/mylaesoftware/actors/ProcessingResult.java:14-18 | succeeds exactly when both arguments are non-null; a null base is reported first ("baseResult must not be null"), then a null reducer ("resultAccumulator must not be null"); on success the result is fresh and empty |
| Results.ProcessingResult.AddSuccess | src/main/java/com/mylaesoftware/actors/ProcessingResult.java:20-22 | the partial result becomes reducer(old partial result, success); the failure map is unchanged; the invariant (partial result = fold of all successes) is kept |
| Results.ProcessingResult.AddFailure | src/main/java/com/mylaesoftware/actors/ProcessingResult.java:24-27 | the failure map is bumped at the failure's class and no count decreases; the partial result is unchanged; the invariant (map = tally of all failure classes) is kept |
| Results.ProcessingResult.GetAccumulatedResult | src/main/java/com/mylaesoftware/actors/ProcessingResult.java:29-31 | returns the reducer's left fold over every success since the base value |
| Results.ProcessingResult.GetFailures | src/main/java/com/mylaesoftware/actors/ProcessingResult.java:33-35 | returns a map whose keys are exactly the failed classes, whose counts are their multiplicities, and whose counts sum to the number of failures |
| Dispatcher.Props | src/main/java/com/mylaesoftware/actors/WorkDispatcher.java:71-80 | succeeds exactly when there is at least one item and a positive worker count; an empty source is refused first ("itemsToDispatch must not be empty"), then a non-positive count ("numberOfWorkers must be greater than zero") |
| Dispatcher.RepliesAppend | src/main/java/com/mylaesoftware/actors/WorkDispatcher.java:55-65 | one more reply extends the dispatched items by its item or the NoMoreWork count by one |
| Dispatcher.WorkDispatcher.constructor | src/main/java/com/mylaesoftware/actors/WorkDispatcher.java:20-38 | nothing dispatched, nothing processed, no worker told NoMoreWork, a fresh ProcessingResult at the base value, and the class invariant established |
| Dispatcher.WorkDispatcher.Handle | src/main/java/com/mylaesoftware/actors/WorkDispatcher.java:40-53 | a stopped dispatcher handles nothing. Otherwise every request gets exactly one reply, the next item or NoMoreWork. A request carrying a result adds it to the fold, a request carrying a failure bumps its class, and either one is counted as processed and reported as progress with the new state. A plain GetWork changes none of these |
| Dispatcher.WorkDispatcher.OnWorkDoneGetMore | src/main/java/com/mylaesoftware/actors/WorkDispatcher.java:41-45 | folds the result in, increments the processed count, logs a progress report of the new state, then dispatches |
| Dispatcher.WorkDispatcher.OnWorkFailedGetMore | src/main/java/com/mylaesoftware/actors/WorkDispatcher.java:46-50 | bumps the failure's class, increments the processed count, logs a progress report of the new state, then dispatches |
| Dispatcher.WorkDispatcher.ReportProgress | src/main/java/com/mylaesoftware/actors/WorkDispatcher.java:43 | the progress callback receives the processed count, accumulated value and failure map; it restores the invariant that report i carries count i+1 |
| Dispatcher.WorkDispatcher.DispatchWorkIfAvailable | src/main/java/com/mylaesoftware/actors/WorkDispatcher.java:55-65 | with items left, replies Work with the next item in order and advances. Otherwise it replies NoMoreWork and increments the counter. When the counter reaches the worker count, it reports completion once with the current state and stops. The invariant is kept |
| Dispatcher.WorkDispatcher.HandOutNextItem | src/main/java/com/mylaesoftware/actors/WorkDispatcher.java:56-57 | with an item left, replies Work carrying exactly the item at the iterator's position, advances by one, and keeps the invariant (items go out as a prefix of the source, in order) |
| Dispatcher.WorkDispatcher.ReplyNoMoreWork | src/main/java/com/mylaesoftware/actors/WorkDispatcher.java:58-63 | with the source exhausted, replies NoMoreWork and adds one to the counter; it stops exactly when the counter is at least numberOfWorkers, and only then appends one completion report of the current state |
| Workers.OutcomeMessage | src/main/java/com/mylaesoftware/actors/Worker.java:37-43 | a non-null success becomes WorkDoneGetMore carrying it; otherwise a non-null failure becomes WorkFailedGetMore carrying it; both null raise NullPointerException "failureOfWorkDone must not be null"; never a plain GetWork |
| Workers.ReportOf | src/main/java/com/mylaesoftware/actors/Worker.java:34-46 | a completed future always yields a report: its success as WorkDoneGetMore, its failure as WorkFailedGetMore |
| Workers.Worker.constructor | src/main/java/com/mylaesoftware/actors/Worker.java:23-32 | a new worker is idle and has sent exactly one GetWork to its parent |
| Workers.Worker.Receive | src/main/java/com/mylaesoftware/actors/Worker.java:25-29 | Work starts processing that item and logs it as received; NoMoreWork terminates the worker; a terminated worker takes nothing; nothing is sent |
| Workers.Worker.Complete | src/main/java/com/mylaesoftware/actors/Worker.java:34-46 | the worker becomes idle and sends the outcome's report message when one can be built; otherwise nothing is sent and the item stays unreported |
| Scenarios.SingleItemSucceeds | src/test/java/com/mylaesoftware/actors/WorkDispatcherTest.java:76-104 | one item, one worker, a successful report: the item is handed out, then NoMoreWork; completion fires once with (1, result, no failures) |
| Scenarios.SingleItemFails | src/test/java/com/mylaesoftware/actors/WorkDispatcherTest.java:106-139 | one item, one worker, a RuntimeException report: one item processed, one failure class with count 1, completion fires once |
| Scenarios.RunWithOneWorker | src/main/java/com/mylaesoftware/actors/WorkDispatcher.java:40-65 | one dispatcher with one worker runs to completion on any source. The worker receives every item once, in order, and reports each once. Every item is counted once as a success or a failure, in order. There is one progress report per item, successes plus the failure counts add up to the number of items, and completion fires once with the final state, after the last progress report |
| Scenarios.ThreeItemsOneWorker | src/main/java/com/mylaesoftware/actors/ProcessingResult.java:20-22 | items 1, 2 and 3 processed to themselves and summed from 0 complete with (3, 6, no failures) |
| Scenarios.OneItemThreeWorkers | src/main/java/com/mylaesoftware/actors/WorkDispatcher.java:58-63 | with three workers and one item, the first two NoMoreWork replies do not complete the batch; the third one does, with (1, 0, {RuntimeException: 1}) |
| Scenarios.WorkerReportsOutcomes | src/test/java/com/mylaesoftware/actors/WorkerTest.java:51-101 | a worker asks for work once on creation, reports success as WorkDoneGetMore with the value and failure as WorkFailedGetMore with the exception, and terminates on NoMoreWork |

## Left out

- Actor plumbing is not modelled: `spawnChildren` (WorkDispatcher.java:67-69), actor creation through `Props.create`, `sender()`/`self()`/`parent()` addressing, mailboxes and scheduling. The dispatcher handles one request at a time, and the reply is its result.
- Concurrency between several workers is not modelled. `Scenarios.RunWithOneWorker` runs a single worker sequentially, and `Scenarios.OneItemThreeWorkers` interleaves three callers by hand.
- `PoisonPill` is modelled as an immediate stop: a stopped dispatcher or worker handles nothing more. In Akka, messages already queued before the pill were still handled. Because the guard is `>=`, a NoMoreWork sent after the threshold would fire completion again. The model does not represent those already-queued messages.
- The progress and completion callbacks (`ProcessingResultProgressReporter`) are modelled as ghost logs of value snapshots. `getFailures` returns the live `HashMap` in Java, so a caller holding it sees later updates; that aliasing is not modelled.
- The two report logs are kept separately. The model states that completion carries the final count and that there is one progress report per item. It does not state the order between the two logs.
- The worker's `workProcessingFunction`, its `Future` and the `ExecutionContext` are abstracted. `Workers.Worker.Complete` is given the (success, failure) pair the future completes with. The scenarios take a `Completion` function in place of the processing function.
- Scenarios.RunWithOneWorker: its `Completion` type cannot express a future that succeeds with null. "Runs to completion on any source" therefore holds only for processing functions that never succeed with null. Such a future leaves the item unreported (see `Workers.Worker.Complete`), and the batch then never completes.
- The reducer and the progress and completion callbacks are total: an exception thrown in the reducer or in either callback is not modelled. In the source such an exception would skip `dispatchWorkIfAvailable` (WorkDispatcher.java:43-44) or the stop (WorkDispatcher.java:61-62).
- Dispatcher.WorkDispatcher.constructor: takes a non-null base value and reducer. The null checks of the ProcessingResult constructor it calls are modelled separately in `Results.ProcessingResult.Create`.
- Dispatcher.WorkDispatcher.constructor: accepts any worker count, because only `props` validates it. For a count of 0 or below, completion fires on the first NoMoreWork, as the `>=` guard does.
- Dispatcher.WorkDispatcher.Handle: `itemsProcessed` (a Java `Long`) and the failure counts (Java `Integer`) are unbounded `nat`s. Their overflow, after 2^63 items or 2^31 failures of one class, is not modelled.
- Workers.Worker.Receive: requires that the worker is not already processing an item. The Java worker would start a second computation on a second `Work`, which the dispatcher never sends while a report is outstanding.
- Workers.Worker.Complete: when both the success and the failure are null, the Java callback throws inside `onComplete` and nothing is sent. The model sends nothing and counts the item as unreported: the dispatcher then never learns of it.
- The unchecked cast `(E) message.resultOfWorkDone` is modelled by typing the message's field as `E`.
- The test-support files (`ActorTesting`, `Eventually`, `ExceptionTesting`, `UnsafeConsumer`) and the end-to-end example test are not part of this model.
- An exception value is modelled as its runtime class, an opaque key `K`, plus a message. The failure map is keyed by that class, as `failure.getClass()` keys it in Java; only the scenarios choose class-name strings for `K`.
