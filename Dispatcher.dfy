/**
 * WorkDispatcher: the coordinator. It owns a forward-only work source, the
 * count of processed items, the count of workers told there is no more work,
 * and the ProcessingResult. It handles one request at a time: outcome reports
 * are folded into the result and reported as progress, and every request is
 * answered with the next item or with NoMoreWork; once enough workers have
 * been told NoMoreWork it reports completion and stops.
 */
module Dispatcher {
  import opened Wrappers
  import opened Messages
  import opened Results

  /** The arguments of a progress or completion callback, as a value snapshot. */
  datatype Report<E, K> = Report(itemsProcessed: nat, accumulatedResult: E, errors: map<K, nat>)

  /** The arguments `props` validates, once they have passed. */
  datatype Config<T> = Config(itemsToDispatch: seq<T>, numberOfWorkers: int)

  /**
   * The validation in `props`: an empty work source is refused first, then a
   * worker count that is not positive.
   */
  function Props<T>(itemsToDispatch: seq<T>, numberOfWorkers: int): (r: Result<Config<T>, JavaException>)
    ensures r.Success? <==> |itemsToDispatch| > 0 && numberOfWorkers > 0
    ensures r.Success? ==> r.value == Config(itemsToDispatch, numberOfWorkers)
    ensures |itemsToDispatch| == 0 ==>
              r == Failure(IllegalArgumentException("itemsToDispatch must not be empty"))
    ensures |itemsToDispatch| > 0 && numberOfWorkers <= 0 ==>
              r == Failure(IllegalArgumentException("numberOfWorkers must be greater than zero"))
  {
    if |itemsToDispatch| == 0 then
      Failure(IllegalArgumentException("itemsToDispatch must not be empty"))
    else if numberOfWorkers <= 0 then
      Failure(IllegalArgumentException("numberOfWorkers must be greater than zero"))
    else
      Success(Config(itemsToDispatch, numberOfWorkers))
  }

  /** The items sent out as Work, in the order they were sent. */
  function WorkItems<T>(replies: seq<Reply<T>>): seq<T>
    decreases |replies|
  {
    if replies == [] then []
    else
      var init, last := replies[..|replies| - 1], replies[|replies| - 1];
      WorkItems(init) + (if last.Work? then [last.work] else [])
  }

  /** How many NoMoreWork replies were sent. */
  function NoMoreWorkCount<T>(replies: seq<Reply<T>>): nat
    decreases |replies|
  {
    if replies == [] then 0
    else
      var init, last := replies[..|replies| - 1], replies[|replies| - 1];
      NoMoreWorkCount(init) + (if last.NoMoreWork? then 1 else 0)
  }

  /** Sending one more reply extends the dispatched items or the NoMoreWork count by that reply. */
  lemma RepliesAppend<T>(replies: seq<Reply<T>>, reply: Reply<T>)
    ensures WorkItems(replies + [reply]) == WorkItems(replies) + (if reply.Work? then [reply.work] else [])
    ensures NoMoreWorkCount(replies + [reply]) == NoMoreWorkCount(replies) + (if reply.NoMoreWork? then 1 else 0)
  {
    assert (replies + [reply])[..|replies|] == replies;
  }

  class WorkDispatcher<T, E, K(==)> {
    const itemsToDispatch: seq<T>
    /** The iterator's position: items before it have been handed out. */
    var position: nat
    const numberOfWorkers: int
    var itemsProcessed: nat
    var numberOfWorkersWithNoMoreWork: nat
    const processingResult: ProcessingResult<E, K>
    /** Set when the dispatcher tells itself to stop; a stopped dispatcher handles nothing. */
    var stopped: bool
    /** Every reply sent, in order. */
    ghost var replies: seq<Reply<T>>
    /** The arguments of every progress callback, in order. */
    ghost var progressReports: seq<Report<E, K>>
    /** The arguments of every completion callback, in order. */
    ghost var completionReports: seq<Report<E, K>>

    /**
     * The value the no-more-work counter has when completion fires: the first
     * increment reaches `numberOfWorkers` when that is positive, and already
     * exceeds it when it is not.
     */
    ghost function Threshold(): nat
      reads this
    {
      if numberOfWorkers <= 0 then 1 else numberOfWorkers
    }

    /** The current items-processed count, accumulated value and failures. */
    ghost function Snapshot(): Report<E, K>
      reads this, processingResult
    {
      Report(itemsProcessed, processingResult.partialResult, processingResult.failures)
    }

    /**
     * The class invariant with the progress log left free: it holds between
     * counting a report and calling the progress callback for it.
     */
    ghost predicate ValidExceptProgress()
      reads this, processingResult
    {
      && processingResult.Valid()
      && position <= |itemsToDispatch|
      // dispatched items are exactly the source up to the iterator, in order, each once
      && WorkItems(replies) == itemsToDispatch[..position]
      // the counter counts NoMoreWork replies, which are only sent once the source is exhausted
      && numberOfWorkersWithNoMoreWork == NoMoreWorkCount(replies)
      && (numberOfWorkersWithNoMoreWork > 0 ==> position == |itemsToDispatch|)
      // every reported outcome, success or failure, is counted once and reported once
      && itemsProcessed == |processingResult.successes| + |processingResult.failureClasses|
      && (forall i :: 0 <= i < |progressReports| ==> progressReports[i].itemsProcessed == i + 1)
      // completion fires once, exactly when the counter reaches the threshold, with the final state
      && numberOfWorkersWithNoMoreWork <= Threshold()
      && (stopped <==> numberOfWorkersWithNoMoreWork == Threshold())
      && |completionReports| == (if stopped then 1 else 0)
      && (stopped ==> completionReports[0] == Snapshot())
    }

    /** The class invariant: in addition, every processed item has had its progress report. */
    ghost predicate Valid()
      reads this, processingResult
    {
      ValidExceptProgress() && |progressReports| == itemsProcessed
    }

    constructor (itemsToDispatch: seq<T>, numberOfWorkers: int, baseResult: E, resultAccumulator: (E, E) -> E)
      ensures Valid() && fresh(processingResult)
      ensures this.itemsToDispatch == itemsToDispatch && this.numberOfWorkers == numberOfWorkers
      ensures position == 0 && itemsProcessed == 0 && numberOfWorkersWithNoMoreWork == 0 && !stopped
      ensures processingResult.partialResult == baseResult && processingResult.failures == map[]
      ensures processingResult.baseResult == baseResult
      ensures processingResult.resultAccumulator == resultAccumulator
      ensures processingResult.successes == [] && processingResult.failureClasses == []
      ensures replies == [] && progressReports == [] && completionReports == []
    {
      this.itemsToDispatch := itemsToDispatch;
      this.numberOfWorkers := numberOfWorkers;
      processingResult := new ProcessingResult(baseResult, resultAccumulator);
      position := 0;
      itemsProcessed := 0;
      numberOfWorkersWithNoMoreWork := 0;
      stopped := false;
      replies := [];
      progressReports := [];
      completionReports := [];
    }

    /**
     * The decision of dispatchWorkIfAvailable, between the state before a
     * request and after it: the next item while the source has one, otherwise
     * NoMoreWork, one more worker counted, and completion exactly when the count
     * reaches the worker count.
     */
    twostate predicate Dispatched(new reply: Reply<T>)
      reads this, processingResult
    {
      if old(position) < |itemsToDispatch| then
        && reply == Work(itemsToDispatch[old(position)])
        && position == old(position) + 1
        && numberOfWorkersWithNoMoreWork == old(numberOfWorkersWithNoMoreWork)
        && !stopped && completionReports == old(completionReports)
      else
        && reply == NoMoreWork
        && position == old(position)
        && numberOfWorkersWithNoMoreWork == old(numberOfWorkersWithNoMoreWork) + 1
        && (stopped <==> numberOfWorkersWithNoMoreWork >= numberOfWorkers)
        && completionReports == old(completionReports) + (if stopped then [Snapshot()] else [])
    }

    /** One message of the actor's receive loop. A stopped dispatcher gives no reply. */
    method Handle(message: Request<E, K>) returns (reply: Option<Reply<T>>)
      requires Valid()
      modifies this, processingResult
      ensures Valid()
      ensures old(stopped) ==> reply == None && unchanged(this, processingResult)
      ensures !old(stopped) ==> reply.Some? && replies == old(replies) + [reply.value] && Dispatched(reply.value)
      // bookkeeping of the reported outcome
      ensures !old(stopped) ==>
                itemsProcessed == old(itemsProcessed) + (if message.GetWork? then 0 else 1)
      ensures !old(stopped) && message.GetWork? ==>
                && processingResult.partialResult == old(processingResult.partialResult)
                && processingResult.failures == old(processingResult.failures)
                && progressReports == old(progressReports)
                && processingResult.successes == old(processingResult.successes)
                && processingResult.failureClasses == old(processingResult.failureClasses)
      ensures !old(stopped) && message.WorkDoneGetMore? ==>
                && processingResult.partialResult ==
                   processingResult.resultAccumulator(old(processingResult.partialResult), message.resultOfWorkDone)
                && processingResult.failures == old(processingResult.failures)
                && processingResult.successes == old(processingResult.successes) + [message.resultOfWorkDone]
                && processingResult.failureClasses == old(processingResult.failureClasses)
      ensures !old(stopped) && message.WorkFailedGetMore? ==>
                && processingResult.failures ==
                   Bump(old(processingResult.failures), message.failureOfWorkDone.errorClass)
                && processingResult.partialResult == old(processingResult.partialResult)
                && processingResult.successes == old(processingResult.successes)
                && processingResult.failureClasses ==
                   old(processingResult.failureClasses) + [message.failureOfWorkDone.errorClass]
      ensures !old(stopped) && !message.GetWork? ==>
                progressReports == old(progressReports) +
                  [Report(itemsProcessed, processingResult.partialResult, processingResult.failures)]
    {
      if stopped {
        return None;
      }
      var r: Reply<T>;
      match message {
        case WorkDoneGetMore(resultOfWorkDone) =>
          r := OnWorkDoneGetMore(resultOfWorkDone);
        case WorkFailedGetMore(failureOfWorkDone) =>
          r := OnWorkFailedGetMore(failureOfWorkDone);
        case GetWork =>
          r := DispatchWorkIfAvailable();
      }
      reply := Some(r);
    }

    /** WorkDoneGetMore: fold the result in, count the item, report progress, then dispatch. */
    method OnWorkDoneGetMore(resultOfWorkDone: E) returns (reply: Reply<T>)
      requires Valid() && !stopped
      modifies this, processingResult
      ensures Valid()
      ensures processingResult.partialResult ==
              processingResult.resultAccumulator(old(processingResult.partialResult), resultOfWorkDone)
      ensures processingResult.failures == old(processingResult.failures)
      ensures processingResult.successes == old(processingResult.successes) + [resultOfWorkDone]
      ensures processingResult.failureClasses == old(processingResult.failureClasses)
      ensures itemsProcessed == old(itemsProcessed) + 1
      ensures progressReports == old(progressReports) +
                [Report(itemsProcessed, processingResult.partialResult, processingResult.failures)]
      ensures replies == old(replies) + [reply] && Dispatched(reply)
    {
      processingResult.AddSuccess(resultOfWorkDone);
      itemsProcessed := itemsProcessed + 1;
      ReportProgress();
      reply := DispatchWorkIfAvailable();
    }

    /** WorkFailedGetMore: count the failure under its class, count the item, report progress, then dispatch. */
    method OnWorkFailedGetMore(failureOfWorkDone: Throwable<K>) returns (reply: Reply<T>)
      requires Valid() && !stopped
      modifies this, processingResult
      ensures Valid()
      ensures processingResult.failures == Bump(old(processingResult.failures), failureOfWorkDone.errorClass)
      ensures processingResult.partialResult == old(processingResult.partialResult)
      ensures processingResult.successes == old(processingResult.successes)
      ensures processingResult.failureClasses == old(processingResult.failureClasses) + [failureOfWorkDone.errorClass]
      ensures itemsProcessed == old(itemsProcessed) + 1
      ensures progressReports == old(progressReports) +
                [Report(itemsProcessed, processingResult.partialResult, processingResult.failures)]
      ensures replies == old(replies) + [reply] && Dispatched(reply)
    {
      processingResult.AddFailure(failureOfWorkDone);
      itemsProcessed := itemsProcessed + 1;
      ReportProgress();
      reply := DispatchWorkIfAvailable();
    }

    /** The progress callback, recorded with the count just incremented. */
    method ReportProgress()
      requires ValidExceptProgress() && !stopped
      requires itemsProcessed == |progressReports| + 1
      modifies this`progressReports
      ensures Valid()
      ensures progressReports == old(progressReports) + [Snapshot()]
    {
      progressReports := progressReports +
        [Snapshot()];
    }

    /** dispatchWorkIfAvailable: the next item if there is one, otherwise NoMoreWork and perhaps completion. */
    method DispatchWorkIfAvailable() returns (reply: Reply<T>)
      requires Valid() && !stopped
      modifies this`position, this`numberOfWorkersWithNoMoreWork, this`stopped,
               this`replies, this`completionReports
      ensures Valid()
      ensures replies == old(replies) + [reply] && Dispatched(reply)
    {
      if position < |itemsToDispatch| {
        reply := HandOutNextItem();
      } else {
        reply := ReplyNoMoreWork();
      }
    }

    /** The iterator has a next item: it is sent as Work and the iterator advances. */
    method HandOutNextItem() returns (reply: Reply<T>)
      requires Valid() && !stopped && position < |itemsToDispatch|
      modifies this`position, this`replies
      ensures Valid()
      ensures reply == Work(itemsToDispatch[old(position)]) && position == old(position) + 1
      ensures replies == old(replies) + [reply]
    {
      reply := Work(itemsToDispatch[position]);
      position := position + 1;
      assert itemsToDispatch[..position] == itemsToDispatch[..old(position)] + [reply.work];
      RepliesAppend(replies, reply);
      replies := replies + [reply];
    }

    /**
     * The iterator is exhausted: NoMoreWork is sent and counted, and once the
     * count reaches the worker count completion is reported and the dispatcher stops.
     */
    method ReplyNoMoreWork() returns (reply: Reply<T>)
      requires Valid() && !stopped && position == |itemsToDispatch|
      modifies this`numberOfWorkersWithNoMoreWork, this`stopped, this`replies, this`completionReports
      ensures Valid()
      ensures reply == NoMoreWork && numberOfWorkersWithNoMoreWork == old(numberOfWorkersWithNoMoreWork) + 1
      ensures stopped <==> numberOfWorkersWithNoMoreWork >= numberOfWorkers
      ensures completionReports == old(completionReports) + (if stopped then [Snapshot()] else [])
      ensures replies == old(replies) + [reply]
    {
      reply := NoMoreWork;
      numberOfWorkersWithNoMoreWork := numberOfWorkersWithNoMoreWork + 1;
      if numberOfWorkersWithNoMoreWork >= numberOfWorkers {
        completionReports := completionReports +
          [Snapshot()];
        stopped := true;
      }
      RepliesAppend(replies, reply);
      replies := replies + [reply];
    }
  }
}
