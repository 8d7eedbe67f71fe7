/**
 * ProcessingResult: the dispatcher's running accumulated value, folded by a
 * caller-supplied reducer (ResultAccumulator), and its failure tally, a map
 * from the runtime class of a failure to how many failures of that class
 * were added.
 */
module Results {
  import opened Wrappers
  import opened Messages

  // ---------------------------------------------------------------------------
  // Specification functions
  // ---------------------------------------------------------------------------

  /** The accumulated value after folding `results`, in order, into `base`. */
  function Fold<E>(accumulate: (E, E) -> E, base: E, results: seq<E>): E
    decreases |results|
  {
    if results == [] then base
    else accumulate(Fold(accumulate, base, results[..|results| - 1]), results[|results| - 1])
  }

  /** The read-modify-write `put` of addFailure: the count of `k` goes up by one, or starts at 1. */
  function Bump<K>(m: map<K, nat>, k: K): (r: map<K, nat>)
    ensures k in r && r[k] == (if k in m then m[k] else 0) + 1
    ensures r.Keys == m.Keys + {k}
    ensures forall j :: j in m && j != k ==> r[j] == m[j]
  {
    m[k := (if k in m then m[k] else 0) + 1]
  }

  /** The failure map after adding failures of the classes in `log`, in order, to an empty map. */
  function Tally<K>(log: seq<K>): map<K, nat>
    decreases |log|
  {
    if log == [] then map[] else Bump(Tally(log[..|log| - 1]), log[|log| - 1])
  }

  /** The sum of all counts in a failure map. */
  ghost function SumValues<K>(m: map<K, nat>): nat
    decreases |m|
  {
    if m == map[] then 0
    else
      var k :| k in m;
      assert (m - {k}).Keys < m.Keys;
      m[k] + SumValues(m - {k})
  }

  // ---------------------------------------------------------------------------
  // Lemmas about the failure tally
  // ---------------------------------------------------------------------------

  /** Each class is counted exactly as often as failures of that class were added. */
  lemma {:induction false} TallyCounts<K>(log: seq<K>)
    ensures Tally(log).Keys == set k | k in log
    ensures forall k :: k in Tally(log) ==> Tally(log)[k] == multiset(log)[k]
  {
    if log != [] {
      var init, last := log[..|log| - 1], log[|log| - 1];
      assert log == init + [last];
      TallyCounts(init);
      assert multiset(log) == multiset(init) + multiset{last};
    }
  }

  /** Counts never decrease as further failures are added. */
  lemma TallyMonotone<K>(log: seq<K>, more: seq<K>)
    ensures forall k :: k in Tally(log) ==> k in Tally(log + more) && Tally(log)[k] <= Tally(log + more)[k]
  {
    TallyCounts(log);
    TallyCounts(log + more);
    assert multiset(log + more) == multiset(log) + multiset(more);
  }

  /** Removing any one key takes exactly its count off the sum. */
  lemma {:induction false} SumValuesRemove<K>(m: map<K, nat>, k: K)
    requires k in m
    ensures SumValues(m) == m[k] + SumValues(m - {k})
    decreases |m|
  {
    var j :| j in m && SumValues(m) == m[j] + SumValues(m - {j});
    if j != k {
      assert (m - {j}).Keys < m.Keys;
      assert (m - {k}).Keys < m.Keys;
      SumValuesRemove(m - {j}, k);
      SumValuesRemove(m - {k}, j);
      assert m - {j} - {k} == m - {k} - {j};
    }
  }

  /** Adding one failure adds exactly one to the sum of the counts. */
  lemma SumValuesBump<K>(m: map<K, nat>, k: K)
    ensures SumValues(Bump(m, k)) == SumValues(m) + 1
  {
    var b := Bump(m, k);
    SumValuesRemove(b, k);
    if k in m {
      SumValuesRemove(m, k);
      assert b - {k} == m - {k};
    } else {
      assert b - {k} == m;
    }
  }

  /** The counts add up to the number of failures added. */
  lemma {:induction false} TallyTotal<K>(log: seq<K>)
    ensures SumValues(Tally(log)) == |log|
  {
    if log != [] {
      TallyTotal(log[..|log| - 1]);
      SumValuesBump(Tally(log[..|log| - 1]), log[|log| - 1]);
    }
  }

  /**
   * Failures are keyed by class only: two failures of one class, whatever their
   * messages, increment one shared counter and add at most that one key.
   */
  lemma SameClassSharesCounter<K>(m: map<K, nat>, a: Throwable<K>, b: Throwable<K>)
    requires a.errorClass == b.errorClass
    ensures var r := Bump(Bump(m, a.errorClass), b.errorClass);
      r.Keys == m.Keys + {a.errorClass} &&
      r[a.errorClass] == (if a.errorClass in m then m[a.errorClass] else 0) + 2
  {
  }

  // ---------------------------------------------------------------------------
  // Integer::sum, the reducer the tests use: Java int addition, which wraps
  // ---------------------------------------------------------------------------

  const TWO_TO_32: int := 0x1_0000_0000
  const TWO_TO_31: int := 0x8000_0000

  newtype int32 = x: int | -0x8000_0000 <= x < 0x8000_0000

  /** Two's-complement truncation of a mathematical integer to 32 bits. */
  function Wrap(x: int): (r: int32)
    ensures (r as int - x) % TWO_TO_32 == 0
  {
    (((x + TWO_TO_31) % TWO_TO_32) - TWO_TO_31) as int32
  }

  /** Integer::sum on Java ints: the exact sum when it fits, otherwise wrapped to 32 bits. */
  function IntegerSum(a: int32, b: int32): (r: int32)
    ensures (r as int - (a as int + b as int)) % TWO_TO_32 == 0
    ensures -TWO_TO_31 <= a as int + b as int < TWO_TO_31 ==> r as int == a as int + b as int
  {
    Wrap(a as int + b as int)
  }

  /** The mathematical sum of a sequence of ints. */
  function Sum(xs: seq<int32>): int
    decreases |xs|
  {
    if xs == [] then 0 else Sum(xs[..|xs| - 1]) + xs[|xs| - 1] as int
  }

  /** Wrapping forgets multiples of 2^32. */
  lemma WrapCongruent(x: int, y: int)
    requires (x - y) % TWO_TO_32 == 0
    ensures Wrap(x) == Wrap(y)
  {
    var q := (x - y) / TWO_TO_32;
    assert x == y + q * TWO_TO_32;
    assert (x + TWO_TO_31) % TWO_TO_32 == (y + TWO_TO_31) % TWO_TO_32;
  }

  /**
   * Folding Integer::sum from `base` gives base plus the sum of the results,
   * truncated to 32 bits as Java int arithmetic does.
   */
  lemma {:induction false} FoldIntegerSum(base: int32, results: seq<int32>)
    ensures Fold(IntegerSum, base, results) == Wrap(base as int + Sum(results))
  {
    if results != [] {
      var init, last := results[..|results| - 1], results[|results| - 1];
      FoldIntegerSum(base, init);
      var prev := Fold(IntegerSum, base, init);
      WrapCongruent(prev as int + last as int, base as int + Sum(init) + last as int);
    }
  }

  /** When the final total fits in an int, the fold is exactly base plus the sum. */
  lemma FoldIntegerSumExact(base: int32, results: seq<int32>)
    requires -TWO_TO_31 <= base as int + Sum(results) < TWO_TO_31
    ensures Fold(IntegerSum, base, results) as int == base as int + Sum(results)
  {
    FoldIntegerSum(base, results);
    var s := base as int + Sum(results);
    assert (s + TWO_TO_31) % TWO_TO_32 == s + TWO_TO_31;
  }

  // ---------------------------------------------------------------------------
  // The mutable ProcessingResult
  // ---------------------------------------------------------------------------

  class ProcessingResult<E, K(==)> {
    /** The caller-supplied ResultAccumulator. */
    const resultAccumulator: (E, E) -> E
    /** The value the accumulation started from. */
    ghost const baseResult: E
    var partialResult: E
    var failures: map<K, nat>
    /** The successful results added so far, in order. */
    ghost var successes: seq<E>
    /** The classes of the failures added so far, in order. */
    ghost var failureClasses: seq<K>

    ghost predicate Valid()
      reads this
    {
      && partialResult == Fold(resultAccumulator, baseResult, successes)
      && failures == Tally(failureClasses)
    }

    constructor (baseResult: E, resultAccumulator: (E, E) -> E)
      ensures Valid()
      ensures this.baseResult == baseResult && this.resultAccumulator == resultAccumulator
      ensures partialResult == baseResult && failures == map[]
      ensures successes == [] && failureClasses == []
    {
      this.resultAccumulator := resultAccumulator;
      this.baseResult := baseResult;
      partialResult := baseResult;
      failures := map[];
      successes := [];
      failureClasses := [];
    }

    /** The Java constructor's null checks, base value first; on success a fresh, empty result. */
    static method Create(baseResult: Option<E>, resultAccumulator: Option<(E, E) -> E>)
      returns (r: Result<ProcessingResult<E, K>, JavaException>)
      ensures r.Success? <==> baseResult.Some? && resultAccumulator.Some?
      ensures baseResult.None? ==> r == Failure(NullPointerException("baseResult must not be null"))
      ensures baseResult.Some? && resultAccumulator.None? ==>
                r == Failure(NullPointerException("resultAccumulator must not be null"))
      ensures r.Success? ==>
                && fresh(r.value) && r.value.Valid()
                && r.value.partialResult == baseResult.value && r.value.failures == map[]
                && r.value.resultAccumulator == resultAccumulator.value
                && r.value.successes == [] && r.value.failureClasses == []
    {
      var base := RequireNonNull(baseResult, "baseResult must not be null");
      if base.Failure? {
        return Failure(base.error);
      }
      var accumulator := RequireNonNull(resultAccumulator, "resultAccumulator must not be null");
      if accumulator.Failure? {
        return Failure(accumulator.error);
      }
      var p := new ProcessingResult(base.value, accumulator.value);
      return Success(p);
    }

    method AddSuccess(successfulResult: E)
      requires Valid()
      modifies this
      ensures Valid()
      ensures partialResult == resultAccumulator(old(partialResult), successfulResult)
      ensures failures == old(failures)
      ensures successes == old(successes) + [successfulResult]
      ensures failureClasses == old(failureClasses)
    {
      partialResult := resultAccumulator(partialResult, successfulResult);
      successes := successes + [successfulResult];
      assert successes[..|successes| - 1] == old(successes);
    }

    method AddFailure(failure: Throwable<K>)
      requires Valid()
      modifies this
      ensures Valid()
      ensures failures == Bump(old(failures), failure.errorClass)
      ensures forall k :: k in old(failures) ==> k in failures && failures[k] >= old(failures)[k]
      ensures partialResult == old(partialResult)
      ensures successes == old(successes)
      ensures failureClasses == old(failureClasses) + [failure.errorClass]
    {
      var count := if failure.errorClass in failures then failures[failure.errorClass] else 0;
      failures := failures[failure.errorClass := count + 1];
      failureClasses := failureClasses + [failure.errorClass];
      assert failureClasses[..|failureClasses| - 1] == old(failureClasses);
    }

    /** The accumulated value is the fold of every success added so far. */
    function GetAccumulatedResult(): (r: E)
      reads this
      requires Valid()
      ensures r == Fold(resultAccumulator, baseResult, successes)
    {
      partialResult
    }

    /** Each class maps to the number of failures of that class added so far; the counts sum to all failures. */
    function GetFailures(): (r: map<K, nat>)
      reads this
      requires Valid()
      ensures r.Keys == set k | k in failureClasses
      ensures forall k :: k in r ==> r[k] == multiset(failureClasses)[k]
      ensures SumValues(r) == |failureClasses|
    {
      TallyCounts(failureClasses);
      TallyTotal(failureClasses);
      failures
    }
  }
}
