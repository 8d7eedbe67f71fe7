/**
 * The messages exchanged between the dispatcher and its workers, and the Java
 * values they carry. The request classes (GetWork and its two subclasses) are
 * declared in WorkDispatcher.java, the replies (Work, NoMoreWork) in Worker.java;
 * they live together here because the two actor modules both use them.
 */
module Messages {
  import opened Wrappers

  /**
   * A Java Throwable, reduced to what the dispatcher looks at: its runtime class
   * (the key of the failure tally) and, for completeness, its message.
   */
  datatype Throwable<K> = Throwable(errorClass: K, message: string)

  /** The exceptions the modelled code throws itself. */
  datatype JavaException =
    | IllegalArgumentException(message: string)
    | NullPointerException(message: string)

  /** Requests a worker sends to the dispatcher; both outcome reports also ask for more work. */
  datatype Request<E, K> =
    | GetWork
    | WorkDoneGetMore(resultOfWorkDone: E)
    | WorkFailedGetMore(failureOfWorkDone: Throwable<K>)

  /** Replies the dispatcher sends to the worker that asked. */
  datatype Reply<T> = Work(work: T) | NoMoreWork

  /** Objects.requireNonNull: the value itself, or a NullPointerException carrying the message. */
  function RequireNonNull<X>(x: Option<X>, message: string): (r: Result<X, JavaException>)
    ensures r.Success? <==> x.Some?
    ensures r.Success? ==> r.value == x.value
    ensures r.Failure? ==> r.error == NullPointerException(message)
  {
    match x
    case Some(v) => Success(v)
    case None => Failure(NullPointerException(message))
  }

  /** The WorkDoneGetMore constructor: a null result is refused. */
  function NewWorkDoneGetMore<E, K>(resultOfWorkDone: Option<E>): (r: Result<Request<E, K>, JavaException>)
    ensures r.Success? <==> resultOfWorkDone.Some?
    ensures r.Success? ==> r.value.WorkDoneGetMore? && r.value.resultOfWorkDone == resultOfWorkDone.value
    ensures r.Failure? ==> r.error == NullPointerException("resultOfWorkDone must not be null")
  {
    match RequireNonNull(resultOfWorkDone, "resultOfWorkDone must not be null")
    case Success(v) => Success(WorkDoneGetMore(v))
    case Failure(x) => Failure(x)
  }

  /** The WorkFailedGetMore constructor: a null failure is refused. */
  function NewWorkFailedGetMore<E, K>(failureOfWorkDone: Option<Throwable<K>>): (r: Result<Request<E, K>, JavaException>)
    ensures r.Success? <==> failureOfWorkDone.Some?
    ensures r.Success? ==> r.value.WorkFailedGetMore? && r.value.failureOfWorkDone == failureOfWorkDone.value
    ensures r.Failure? ==> r.error == NullPointerException("failureOfWorkDone must not be null")
  {
    match RequireNonNull(failureOfWorkDone, "failureOfWorkDone must not be null")
    case Success(f) => Success(WorkFailedGetMore(f))
    case Failure(x) => Failure(x)
  }
}
