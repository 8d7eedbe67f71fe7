/**
 * Worker: asks its parent for work when created, processes each item it is
 * given, turns the completed outcome into one report that also asks for more,
 * and stops when told there is no more work. The asynchronous processing
 * function is abstracted to the (failure, success) pair its future completes with.
 */
module Workers {
  import opened Wrappers
  import opened Messages

  /**
   * The report a completed outcome becomes: a non-null success value is a
   * WorkDoneGetMore, otherwise the failure is a WorkFailedGetMore. When the
   * success value and the failure are both null, building the failure report
   * throws, and nothing can be sent.
   */
  function OutcomeMessage<E, K>(success: Option<E>, failure: Option<Throwable<K>>): (r: Result<Request<E, K>, JavaException>)
    ensures success.Some? ==> r == Success(WorkDoneGetMore(success.value))
    ensures success.None? && failure.Some? ==> r == Success(WorkFailedGetMore(failure.value))
    ensures success.None? && failure.None? ==>
              r == Failure(NullPointerException("failureOfWorkDone must not be null"))
    ensures r.Success? ==> !r.value.GetWork?
  {
    match success
    case Some(s) => NewWorkDoneGetMore(Some(s))
    case None => NewWorkFailedGetMore(failure)
  }

  /**
   * How a processing future completes, for a processing function that never
   * succeeds with null: a value or a failure. (A future that succeeds with null
   * hands onComplete the pair (null, null); `Worker.Complete` takes that case.)
   */
  datatype Completion<E, K> = Succeeded(value: E) | Failed(failure: Throwable<K>) {
    function SuccessValue(): Option<E> {
      if Succeeded? then Some(value) else None
    }
    function FailureValue(): Option<Throwable<K>> {
      if Failed? then Some(failure) else None
    }
  }

  /** A completed future always yields exactly one report: its value, or its failure. */
  function ReportOf<E, K>(c: Completion<E, K>): (r: Request<E, K>)
    ensures OutcomeMessage(c.SuccessValue(), c.FailureValue()) == Success(r)
    ensures c.Succeeded? <==> r.WorkDoneGetMore?
    ensures c.Succeeded? ==> r.resultOfWorkDone == c.value
    ensures c.Failed? ==> r == WorkFailedGetMore(c.failure)
  {
    match c
    case Succeeded(v) => WorkDoneGetMore(v)
    case Failed(f) => WorkFailedGetMore(f)
  }

  datatype WorkerState<T> = Idle | Processing(work: T) | Terminated

  class Worker<T, E, K> {
    var state: WorkerState<T>
    /** The messages told to the parent dispatcher, in order. */
    ghost var sent: seq<Request<E, K>>
    /** The items received as Work, in order. */
    ghost var received: seq<T>
    /** Completed outcomes for which no report could be built. */
    ghost var unreported: nat

    ghost predicate Valid()
      reads this
    {
      // the first message is the request made on creation; every later one reports an outcome
      && |sent| >= 1 && sent[0] == GetWork
      && (forall i :: 1 <= i < |sent| ==> !sent[i].GetWork?)
      // every item received is reported once, lost to a null outcome, or still being processed
      && |received| == (|sent| - 1) + unreported + (if state.Processing? then 1 else 0)
      && (state.Processing? ==> state.work == received[|received| - 1])
    }

    /** A new worker is idle and has asked its parent for work once. */
    constructor ()
      ensures Valid()
      ensures state == Idle && sent == [GetWork] && received == [] && unreported == 0
    {
      state := Idle;
      sent := [GetWork];
      received := [];
      unreported := 0;
    }

    /** A reply from the dispatcher, which answers only a worker that is not processing. */
    method Receive(message: Reply<T>)
      requires Valid() && !state.Processing?
      modifies this
      ensures Valid()
      ensures sent == old(sent) && unreported == old(unreported)
      ensures old(state).Terminated? ==> state == Terminated && received == old(received)
      ensures old(state).Idle? && message.NoMoreWork? ==> state == Terminated && received == old(received)
      ensures old(state).Idle? && message.Work? ==>
                state == Processing(message.work) && received == old(received) + [message.work]
    {
      if state.Terminated? {
        return;
      }
      match message {
        case NoMoreWork =>
          state := Terminated;
        case Work(work) =>
          state := Processing(work);
          received := received + [work];
      }
    }

    /** The outcome of the current item completes: at most one report, and the worker is idle again. */
    method Complete(success: Option<E>, failure: Option<Throwable<K>>) returns (report: Option<Request<E, K>>)
      requires Valid() && state.Processing?
      modifies this
      ensures Valid()
      ensures state == Idle && received == old(received)
      ensures report.Some? <==> OutcomeMessage(success, failure).Success?
      ensures report.Some? ==> report.value == OutcomeMessage(success, failure).value
      ensures sent == old(sent) + (if report.Some? then [report.value] else [])
      ensures unreported == old(unreported) + (if report.Some? then 0 else 1)
    {
      var message := OutcomeMessage(success, failure);
      if message.Success? {
        report := Some(message.value);
        sent := sent + [message.value];
      } else {
        report := None;
        unreported := unreported + 1;
      }
      state := Idle;
    }
  }
}
