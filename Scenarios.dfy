/**
 * Client runs of the dispatcher and the worker, proved from the classes'
 * contracts alone. They replay the repository's unit tests
 * (SingleItemSucceeds, SingleItemFails, WorkerReportsOutcomes), run one
 * worker over any work source (RunWithOneWorker), and run two further
 * batches (ThreeItemsOneWorker, OneItemThreeWorkers). The dispatcher is
 * built as the tests build it: worker count 1 unless stated, base value 0
 * and Integer::sum as the reducer.
 */
module Scenarios {
  import opened Wrappers
  import opened Messages
  import opened Results
  import opened Dispatcher
  import opened Workers

  const RUNTIME_EXCEPTION: string := "java.lang.RuntimeException"

  /**
   * One item, one worker, the work succeeds with `h`: the item is handed out,
   * the report is answered with NoMoreWork, and completion carries (1, h, {}).
   */
  method SingleItemSucceeds(h: int32)
    returns (first: Option<Reply<string>>, second: Option<Reply<string>>, final: Report<int32, string>,
             stopped: bool, ghost completions: seq<Report<int32, string>>)
    ensures first == Some(Work("WORK!")) && second == Some(NoMoreWork)
    ensures final == Report(1, h, map[]) && stopped
    ensures completions == [final]
  {
    var d := new WorkDispatcher<string, int32, string>(["WORK!"], 1, 0, IntegerSum);
    first := d.Handle(GetWork);
    second := d.Handle(WorkDoneGetMore(h));
    final := Report(d.itemsProcessed, d.processingResult.partialResult, d.processingResult.failures);
    stopped := d.stopped;
    completions := d.completionReports;
  }

  /**
   * One item, one worker, the work fails with a RuntimeException: one item is
   * processed, the tally holds one failure of that class, and the batch completes.
   */
  method SingleItemFails()
    returns (first: Option<Reply<string>>, second: Option<Reply<string>>, final: Report<int32, string>,
             stopped: bool, ghost completions: seq<Report<int32, string>>)
    ensures first == Some(Work("WORK!")) && second == Some(NoMoreWork)
    ensures final == Report(1, 0, map[RUNTIME_EXCEPTION := 1]) && |final.errors| == 1
    ensures stopped && completions == [final]
  {
    var d := new WorkDispatcher<string, int32, string>(["WORK!"], 1, 0, IntegerSum);
    first := d.Handle(GetWork);
    second := d.Handle(WorkFailedGetMore(Throwable(RUNTIME_EXCEPTION, "KABOOM")));
    final := Report(d.itemsProcessed, d.processingResult.partialResult, d.processingResult.failures);
    stopped := d.stopped;
    completions := d.completionReports;
  }

  /** The successful results of processing `items`, in order. */
  function SuccessesOf<T, E, K>(process: T -> Completion<E, K>, items: seq<T>): seq<E>
    decreases |items|
  {
    if items == [] then []
    else
      var c := process(items[|items| - 1]);
      SuccessesOf(process, items[..|items| - 1]) + (if c.Succeeded? then [c.value] else [])
  }

  /** The error classes of the failed items among `items`, in order. */
  function FailureClassesOf<T, E, K>(process: T -> Completion<E, K>, items: seq<T>): seq<K>
    decreases |items|
  {
    if items == [] then []
    else
      var c := process(items[|items| - 1]);
      FailureClassesOf(process, items[..|items| - 1]) + (if c.Failed? then [c.failure.errorClass] else [])
  }

  /**
   * What holds between two exchanges of a one-worker run: the worker has been
   * handed exactly the items before the dispatcher's position and has reported
   * every one it finished; `request` is its message not yet delivered.
   */
  ghost predicate RunInvariant<T, E, K>(d: WorkDispatcher<T, E, K>, worker: Worker<T, E, K>,
                                           process: T -> Completion<E, K>, request: Request<E, K>)
    reads d, d.processingResult, worker
  {
    && d.Valid() && worker.Valid() && d.numberOfWorkers == 1
    && d.itemsProcessed <= d.position
    && worker.unreported == 0 && worker.received == d.itemsToDispatch[..d.position]
    && |worker.sent| == d.position + 1
    && d.processingResult.successes == SuccessesOf(process, d.itemsToDispatch[..d.itemsProcessed])
    && d.processingResult.failureClasses == FailureClassesOf(process, d.itemsToDispatch[..d.itemsProcessed])
    && (!d.stopped ==> worker.state == Idle && d.numberOfWorkersWithNoMoreWork == 0)
    && (!d.stopped && request.GetWork? ==> d.position == 0 && d.itemsProcessed == 0)
    && (!d.stopped && !request.GetWork? ==>
          && 0 < d.position && d.itemsProcessed == d.position - 1
          && request == ReportOf(process(d.itemsToDispatch[d.position - 1])))
    && (d.stopped ==> worker.state == Terminated && d.itemsProcessed == d.position == |d.itemsToDispatch|)
  }

  /** One exchange: the dispatcher handles the pending request, the worker takes the reply and reports. */
  method Exchange<T, E, K(==)>(d: WorkDispatcher<T, E, K>, worker: Worker<T, E, K>,
                              process: T -> Completion<E, K>, request: Request<E, K>)
    returns (next: Request<E, K>)
    requires RunInvariant(d, worker, process, request) && !d.stopped
    modifies d, d.processingResult, worker
    ensures RunInvariant(d, worker, process, next)
    ensures d.position > old(d.position) || (d.position == old(d.position) && d.stopped)
  {
    var reply := Serve(d, worker, process, request);
    next := Answer(d, worker, process, reply);
  }

  /** The dispatcher's half of an exchange. */
  method Serve<T, E, K(==)>(d: WorkDispatcher<T, E, K>, worker: Worker<T, E, K>,
                           process: T -> Completion<E, K>, request: Request<E, K>)
    returns (reply: Reply<T>)
    requires RunInvariant(d, worker, process, request) && !d.stopped
    modifies d, d.processingResult
    ensures d.Valid() && d.itemsProcessed == d.position - (if reply.Work? then 1 else 0)
    ensures d.processingResult.successes == SuccessesOf(process, d.itemsToDispatch[..d.itemsProcessed])
    ensures d.processingResult.failureClasses == FailureClassesOf(process, d.itemsToDispatch[..d.itemsProcessed])
    ensures reply.Work? ==>
              && d.position == old(d.position) + 1 && reply.work == d.itemsToDispatch[old(d.position)]
              && !d.stopped && d.numberOfWorkersWithNoMoreWork == 0
    ensures reply.NoMoreWork? ==> d.position == old(d.position) == |d.itemsToDispatch| && d.stopped
  {
    ghost var processed := d.itemsProcessed;
    var r := d.Handle(request);
    reply := r.value;
    if !request.GetWork? {
      assert d.itemsToDispatch[..d.itemsProcessed][..processed] == d.itemsToDispatch[..processed];
    }
  }

  /** The worker's half of an exchange: take the reply, and report the item it carried. */
  method Answer<T, E, K(==)>(d: WorkDispatcher<T, E, K>, worker: Worker<T, E, K>,
                            process: T -> Completion<E, K>, reply: Reply<T>)
    returns (next: Request<E, K>)
    requires d.Valid() && d.numberOfWorkers == 1 && worker.Valid() && worker.state == Idle
    requires worker.unreported == 0 && |worker.sent| == |worker.received| + 1
    requires d.itemsProcessed == d.position - (if reply.Work? then 1 else 0)
    requires d.processingResult.successes == SuccessesOf(process, d.itemsToDispatch[..d.itemsProcessed])
    requires d.processingResult.failureClasses == FailureClassesOf(process, d.itemsToDispatch[..d.itemsProcessed])
    requires reply.Work? ==>
               && 0 < d.position && reply.work == d.itemsToDispatch[d.position - 1]
               && worker.received == d.itemsToDispatch[..d.position - 1]
               && !d.stopped && d.numberOfWorkersWithNoMoreWork == 0
    requires reply.NoMoreWork? ==>
               d.position == |d.itemsToDispatch| && d.stopped && worker.received == d.itemsToDispatch[..d.position]
    modifies worker
    ensures RunInvariant(d, worker, process, next)
  {
    worker.Receive(reply);
    next := GetWork;
    if worker.state.Processing? {
      var completion := process(worker.state.work);
      var report := worker.Complete(completion.SuccessValue(), completion.FailureValue());
      next := report.value;
      assert d.itemsToDispatch[..d.position] == d.itemsToDispatch[..d.position - 1] + [reply.work];
    }
  }

  /**
   * A fresh dispatcher with worker count 1 and one worker whose items
   * complete as `process` says, exchanging messages one at a time until the
   * dispatcher stops. The worker is handed every item once, in order, and
   * reports each once; every item is counted once as a success or a failure,
   * and completion fires once, with the final state, after the last report.
   */
  method RunWithOneWorker<T, E, K(==)>(d: WorkDispatcher<T, E, K>, process: T -> Completion<E, K>)
    returns (worker: Worker<T, E, K>)
    requires d.Valid() && d.numberOfWorkers == 1
    requires d.position == 0 && d.itemsProcessed == 0 && !d.stopped
    modifies d, d.processingResult
    ensures fresh(worker) && worker.Valid() && worker.state == Terminated
    ensures worker.received == d.itemsToDispatch && |worker.sent| == |d.itemsToDispatch| + 1
    ensures d.Valid() && d.stopped
    ensures d.itemsProcessed == |d.itemsToDispatch| && |d.progressReports| == |d.itemsToDispatch|
    ensures d.processingResult.successes == SuccessesOf(process, d.itemsToDispatch)
    ensures d.processingResult.failureClasses == FailureClassesOf(process, d.itemsToDispatch)
    ensures d.completionReports == [d.Snapshot()]
    ensures |d.processingResult.successes| + SumValues(d.processingResult.GetFailures()) == |d.itemsToDispatch|
    ensures d.completionReports[0].itemsProcessed == |d.progressReports|
  {
    worker := new Worker<T, E, K>();
    var request: Request<E, K> := GetWork;
    while !d.stopped
      invariant fresh(worker)
      invariant RunInvariant(d, worker, process, request)
      decreases |d.itemsToDispatch| - d.position, if d.stopped then 0 else 1
    {
      request := Exchange(d, worker, process, request);
    }
    assert d.itemsToDispatch[..d.position] == d.itemsToDispatch;
  }

  /** The processing function of the three-item batch: every item succeeds with its own value. */
  function Identity(x: int32): Completion<int32, string> {
    Succeeded(x)
  }

  /** In the three-item batch every item succeeds, and the results sum to 6. */
  lemma ThreeItemsOutcomes()
    ensures SuccessesOf(Identity, [1, 2, 3]) == [1, 2, 3]
    ensures FailureClassesOf<int32, int32, string>(Identity, [1, 2, 3]) == []
    ensures Fold(IntegerSum, 0, [1, 2, 3]) == 6
  {
    var one: seq<int32>, two: seq<int32>, three: seq<int32> := [1], [1, 2], [1, 2, 3];
    assert three[..2] == two && two[..1] == one && one[..0] == [];
    assert SuccessesOf(Identity, three) == three by {
      assert SuccessesOf(Identity, one) == one && SuccessesOf(Identity, two) == two;
    }
    assert FailureClassesOf<int32, int32, string>(Identity, three) == [] by {
      assert FailureClassesOf<int32, int32, string>(Identity, one) == [];
      assert FailureClassesOf<int32, int32, string>(Identity, two) == [];
    }
    assert Fold(IntegerSum, 0, three) == 6 by {
      assert Sum(one) == 1 && Sum(two) == 3 && Sum(three) == 6;
      FoldIntegerSumExact(0, three);
    }
  }

  /**
   * Items [1, 2, 3] and one worker whose processing returns the item itself:
   * three progress reports, then completion with (3, 6, {}).
   */
  method ThreeItemsOneWorker()
    returns (final: Report<int32, string>, stopped: bool, workerState: WorkerState<int32>,
             ghost completions: seq<Report<int32, string>>)
    ensures final == Report(3, 6, map[]) && stopped && workerState == Terminated
    ensures completions == [final]
  {
    var d := new WorkDispatcher<int32, int32, string>([1, 2, 3], 1, 0, IntegerSum);
    var w := RunWithOneWorker(d, Identity);
    ThreeItemsOutcomes();
    final := Report(d.itemsProcessed, d.processingResult.partialResult, d.processingResult.failures);
    stopped := d.stopped;
    workerState := w.state;
    completions := d.completionReports;
  }

  /**
   * One item and three workers, the one that gets the item fails: the other
   * two are told NoMoreWork without completing the batch, and completion
   * fires only on the third NoMoreWork, with (1, 0, {RuntimeException: 1}).
   */
  method OneItemThreeWorkers()
    returns (replies: seq<Option<Reply<string>>>, stoppedEarly: bool, final: Report<int32, string>,
             stopped: bool, ghost completions: seq<Report<int32, string>>)
    ensures replies == [Some(Work("a")), Some(NoMoreWork), Some(NoMoreWork), Some(NoMoreWork)]
    ensures !stoppedEarly
    ensures final == Report(1, 0, map[RUNTIME_EXCEPTION := 1]) && stopped && completions == [final]
  {
    var d := new WorkDispatcher<string, int32, string>(["a"], 3, 0, IntegerSum);
    var r0 := d.Handle(GetWork);
    var r1 := d.Handle(GetWork);
    var r2 := d.Handle(GetWork);
    stoppedEarly := d.stopped;
    var r3 := d.Handle(WorkFailedGetMore(Throwable(RUNTIME_EXCEPTION, "boom")));
    replies := [r0, r1, r2, r3];
    final := Report(d.itemsProcessed, d.processingResult.partialResult, d.processingResult.failures);
    stopped := d.stopped;
    completions := d.completionReports;
  }

  /**
   * The worker tests: a new worker asks for work once; a successful item is
   * reported as WorkDoneGetMore with its value, a failed one as
   * WorkFailedGetMore with its failure; NoMoreWork terminates it silently.
   */
  method WorkerReportsOutcomes(failure: Throwable<string>)
    returns (done: Option<Request<string, string>>, failed: Option<Request<string, string>>,
             finalState: WorkerState<string>, ghost sent: seq<Request<string, string>>)
    ensures done == Some(WorkDoneGetMore("WORKED"))
    ensures failed == Some(WorkFailedGetMore(failure))
    ensures finalState == Terminated
    ensures sent == [GetWork, WorkDoneGetMore("WORKED"), WorkFailedGetMore(failure)]
  {
    var w := new Worker<string, string, string>();
    w.Receive(Work("WORK!"));
    done := w.Complete(Some("WORKED"), None);
    w.Receive(Work("WORK!"));
    failed := w.Complete(None, Some(failure));
    w.Receive(NoMoreWork);
    finalState := w.state;
    sent := w.sent;
  }
}
