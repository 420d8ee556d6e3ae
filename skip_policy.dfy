/** CustomSkipPolicy: the fail-fast gate deciding whether a failed item may be skipped. */
module SkipPolicy {
  import opened Errors

  /** How many transient errors the gate absorbs. */
  const SkipLimit: int := 3

  /**
   * shouldSkip(exception, skipCount): a data error (InvalidData or its
   * subclass MalformedXml) is never skipped; any other error is skipped while
   * fewer than SkipLimit items have been skipped.
   */
  function ShouldSkip(e: Err, skipCount: int): (skip: bool)
    ensures e.IsInvalidData() ==> !skip
    ensures skip <==> e.Other? && skipCount < SkipLimit
  {
    if e.InvalidData? || e.MalformedXml? then false
    else skipCount < SkipLimit
  }

  /** A refusal is final: once an error is refused at count n, it is refused at every larger count. */
  lemma RefusalIsMonotone(e: Err, n: int, m: int)
    requires n <= m && !ShouldSkip(e, n)
    ensures !ShouldSkip(e, m)
  {
  }

  /** Exactly the counts 0, 1 and 2 admit a skip of a transient error. */
  lemma SkippableCounts(e: Err, n: nat)
    requires e.Other?
    ensures ShouldSkip(e, n) <==> n == 0 || n == 1 || n == 2
  {
  }

  /**
   * A run of failed items presented to the gate in order, the skip count
   * rising by one with each skip: how many are skipped before the first
   * refusal (all of them when none is refused).
   */
  function SkipsBeforeRefusal(errors: seq<Err>, skipCount: int): (n: nat)
    ensures n <= |errors|
    ensures forall j :: 0 <= j < n ==> errors[j].Other?
    ensures forall j :: 0 <= j < n ==> ShouldSkip(errors[j], skipCount + j)
    ensures n < |errors| ==> !ShouldSkip(errors[n], skipCount + n)
  {
    if errors == [] || !ShouldSkip(errors[0], skipCount) then 0
    else 1 + SkipsBeforeRefusal(errors[1..], skipCount + 1)
  }

  /** Starting from count c >= 0, at most SkipLimit - c items are skipped. */
  lemma {:induction false} AtMostThreeSkips(errors: seq<Err>, skipCount: nat)
    ensures SkipsBeforeRefusal(errors, skipCount) <= if skipCount < SkipLimit then SkipLimit - skipCount else 0
    decreases errors
  {
    if errors != [] && ShouldSkip(errors[0], skipCount) {
      AtMostThreeSkips(errors[1..], skipCount + 1);
    }
  }

  /** Four transient errors in a row from a fresh count: three are skipped and the fourth is refused. */
  lemma {:induction false} FourthTransientErrorIsFatal(errors: seq<Err>)
    requires |errors| >= 4
    requires forall j :: 0 <= j < 4 ==> errors[j].Other?
    ensures SkipsBeforeRefusal(errors, 0) == 3
    ensures !ShouldSkip(errors[3], 3)
  {
    assert errors[1..][1..][1..][0] == errors[3];
    assert SkipsBeforeRefusal(errors[1..][1..][1..], 3) == 0;
    assert SkipsBeforeRefusal(errors[1..][1..], 2) == 1;
    assert SkipsBeforeRefusal(errors[1..], 1) == 2;
  }

  /** A data error in the run halts it at or before that item, however many skips remain. */
  lemma {:induction false} DataErrorHalts(errors: seq<Err>, skipCount: int, j: nat)
    requires j < |errors| && errors[j].IsInvalidData()
    ensures SkipsBeforeRefusal(errors, skipCount) <= j
  {
  }
}
