/**
 * The reader, the processor and the skip policy together: every failure the
 * reader or the processor reports reaches the skip policy as a data error,
 * so the step is never allowed to skip past it.
 */
module Pipeline {
  import opened Wrappers
  import opened Errors
  import opened SkipPolicy
  import opened Reader
  import opened Processor

  /** Whatever exception the reader or the processor catches, the error they throw is refused by shouldSkip at every count. */
  lemma NoWrappedFailureIsSkippable(e: Err, xmlMessage: string, skipCount: int)
    ensures !ShouldSkip(ReaderWrap(e), skipCount)
    ensures !ShouldSkip(ProcessorWrap(e, xmlMessage), skipCount)
  {
    assert ReaderWrap(e).IsInvalidData();
    assert ProcessorWrap(e, xmlMessage).IsInvalidData();
  }

  /** A failed read is never skipped, and after it every read returns null: the stream ends. */
  lemma {:induction false} ReadFailureEndsTheStream(st: ReaderState, polls: seq<Poll>, parse: string -> ParseVerdict, i: nat, skipCount: int)
    requires i < |polls| && Run(st, polls, parse)[i].Failure?
    ensures !ShouldSkip(Run(st, polls, parse)[i].error, skipCount)
    ensures forall j :: i < j < |polls| ==> Run(st, polls, parse)[j] == Success(None)
  {
    ReadFailureIsDataError(st, polls, parse, i);
    AtMostOneFailure(st, polls, parse, i);
  }

  /** Every failure in a run of reads is a data error. */
  lemma {:induction false} ReadFailureIsDataError(st: ReaderState, polls: seq<Poll>, parse: string -> ParseVerdict, i: nat)
    requires i < |polls| && Run(st, polls, parse)[i].Failure?
    ensures Run(st, polls, parse)[i].error.IsInvalidData()
    decreases |polls|
  {
    var s := ReadFrom(st, polls[0].rta, polls[0].mas, parse);
    if i > 0 {
      ReadFailureIsDataError(s.next, polls[1..], parse, i - 1);
    }
  }
}
