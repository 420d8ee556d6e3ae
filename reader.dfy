/**
 * IBMMQItemReader: a reader over two queues with a sticky queue selector and
 * a stop flag that, once set by any failure, ends the stream for good.
 *
 * What each receive delivers is a parameter (a Receipt per queue), and the
 * DOM well-formedness check is an injected function from the cleaned text
 * to a ParseVerdict.
 */
module Reader {
  import opened Wrappers
  import opened JavaText
  import opened Errors
  import opened Sanitizer

  datatype Queue = Rta | Mas

  function QueueName(q: Queue): string {
    match q
    case Rta => "NOTIFICA.EOL.RTA"
    case Mas => "NOTIFICA.EOL.MAS"
  }

  /** The queue the selector designates. */
  function QueueOf(useRta: bool): Queue {
    if useRta then Rta else Mas
  }

  /** What one receiveAndConvert on a queue gives: a message, null, or an exception. */
  datatype Receipt = Delivered(text: string) | NoMessage | ReceiveFailed(reason: string)

  /** What the DOM parser makes of a cleaned payload; a rejection carries the exception's message and class name. */
  datatype ParseVerdict = WellFormed | NotWellFormed(message: string, exceptionType: string)

  function ReceiptOf(q: Queue, rta: Receipt, mas: Receipt): Receipt {
    if q == Rta then rta else mas
  }

  /** The receives of one read: the receipt it ends with, from which queue, the queues polled in order, and the new selector. */
  datatype Fetch = Fetch(receipt: Receipt, from: Queue, polled: seq<Queue>, useRta: bool)

  /**
   * The receive part of read: the designated queue first; only when it has
   * no message, flip the selector and try the other queue once.
   */
  function FetchFrom(useRta: bool, rta: Receipt, mas: Receipt): (f: Fetch)
    ensures 1 <= |f.polled| <= 2 && f.polled[0] == QueueOf(useRta) && f.from == f.polled[|f.polled| - 1]
    ensures |f.polled| == 2 <==> ReceiptOf(QueueOf(useRta), rta, mas).NoMessage?
    ensures |f.polled| == 2 ==> f.polled[1] != f.polled[0]
    ensures f.receipt == ReceiptOf(f.from, rta, mas)
    ensures f.useRta == (f.from == Rta)
  {
    var first := QueueOf(useRta);
    var r := ReceiptOf(first, rta, mas);
    if r.NoMessage? then
      var second := QueueOf(!useRta);
      Fetch(ReceiptOf(second, rta, mas), second, [first, second], !useRta)
    else
      Fetch(r, first, [first], useRta)
  }

  /** A message waiting on either queue is received, unless the first receive throws. */
  lemma FailoverFindsWaitingMessage(useRta: bool, rta: Receipt, mas: Receipt)
    requires !ReceiptOf(QueueOf(useRta), rta, mas).ReceiveFailed?
    requires rta.Delivered? || mas.Delivered?
    ensures FetchFrom(useRta, rta, mas).receipt.Delivered?
    ensures ReceiptOf(QueueOf(useRta), rta, mas).Delivered? ==>
      FetchFrom(useRta, rta, mas).from == QueueOf(useRta) && FetchFrom(useRta, rta, mas).useRta == useRta
  {
    var f := FetchFrom(useRta, rta, mas);
    if |f.polled| == 2 {
      assert f.from != QueueOf(useRta);
      assert f.from == Rta || f.from == Mas;
    }
  }

  /** The message of handleInvalidData for a blank message. */
  const EmptyMessageHead := "Mensaje vacío encontrado en la cola "

  /** The message read's catch clause gives any exception that is not a data error. */
  const CriticalReadMessage := "Error crítico al leer de la cola IBM MQ"

  /**
   * validateXmlFormat: the cleaned text goes to the parser; a rejection
   * becomes MalformedXml carrying the diagnosis and the raw payload.
   */
  function XmlFormatCheck(xmlContent: string, parse: string -> ParseVerdict): (o: Outcome<Err>)
    ensures o.Pass? <==> parse(Sanitize(xmlContent)).WellFormed?
    ensures o.Fail? ==> o.error.MalformedXml? && o.error.payload == xmlContent
    ensures o.Fail? ==>
      o.error.message == AnalyzeXmlError(xmlContent, parse(Sanitize(xmlContent)).message, parse(Sanitize(xmlContent)).exceptionType)
  {
    match parse(Sanitize(xmlContent))
    case WellFormed => Pass
    case NotWellFormed(message, exceptionType) =>
      Fail(MalformedXml(AnalyzeXmlError(xmlContent, message, exceptionType), xmlContent))
  }

  /** The checks read applies to a received message: not blank, then well-formed once cleaned. */
  function Admit(message: string, from: Queue, parse: string -> ParseVerdict): (o: Outcome<Err>)
    ensures o.Pass? <==> Trim(message) != [] && parse(Sanitize(message)).WellFormed?
    ensures o.Fail? ==> o.error.MalformedXml? && o.error.payload == message
    ensures Trim(message) == [] ==> o == Fail(MalformedXml(EmptyMessageHead + QueueName(from), message))
  {
    if Trim(message) == [] then Fail(MalformedXml(EmptyMessageHead + QueueName(from), message))
    else XmlFormatCheck(message, parse)
  }

  /** The catch clause of read: a data error is rethrown as it is, anything else becomes InvalidData with an empty payload. */
  function ReaderWrap(e: Err): (w: Err)
    ensures w.IsInvalidData()
    ensures e.IsInvalidData() ==> w == e
    ensures e.Other? ==> w == InvalidData(CriticalReadMessage, "")
  {
    if e.IsInvalidData() then e else InvalidData(CriticalReadMessage, "")
  }

  /** The fields of the reader. */
  datatype ReaderState = ReaderState(stopped: bool, useRta: bool)

  /** What one read returns and leaves behind. */
  datatype Step = Step(outcome: Result<Option<string>, Err>, polled: seq<Queue>, next: ReaderState)

  /** One call of read, from the reader's fields, the two receipts and the parser. */
  function ReadFrom(st: ReaderState, rta: Receipt, mas: Receipt, parse: string -> ParseVerdict): (s: Step)
    ensures st.stopped ==> s == Step(Success(None), [], st)
    ensures !st.stopped ==> s.polled == FetchFrom(st.useRta, rta, mas).polled && s.next.useRta == FetchFrom(st.useRta, rta, mas).useRta
    ensures s.next.stopped <==> st.stopped || s.outcome.Failure?
    ensures s.outcome.Failure? ==> s.outcome.error.IsInvalidData()
    ensures !st.stopped ==> (s.outcome == Success(None) <==> FetchFrom(st.useRta, rta, mas).receipt.NoMessage?)
    ensures !st.stopped ==> (s.outcome.Success? && s.outcome.value.Some? <==>
      var f := FetchFrom(st.useRta, rta, mas);
      f.receipt.Delivered? && Admit(f.receipt.text, f.from, parse).Pass?)
    ensures s.outcome.Success? && s.outcome.value.Some? ==>
      s.outcome.value == Some(FetchFrom(st.useRta, rta, mas).receipt.text)
    ensures !st.stopped && FetchFrom(st.useRta, rta, mas).receipt.ReceiveFailed? ==>
      s.outcome == Failure(InvalidData(CriticalReadMessage, ""))
    ensures !st.stopped ==>
      var f := FetchFrom(st.useRta, rta, mas);
      f.receipt.Delivered? && Admit(f.receipt.text, f.from, parse).Fail? ==>
        s.outcome == Failure(Admit(f.receipt.text, f.from, parse).error)
  {
    if st.stopped then Step(Success(None), [], st)
    else
      var f := FetchFrom(st.useRta, rta, mas);
      var fields := st.(useRta := f.useRta);
      match f.receipt
      case NoMessage => Step(Success(None), f.polled, fields)
      case ReceiveFailed(reason) => Step(Failure(ReaderWrap(Other(reason))), f.polled, fields.(stopped := true))
      case Delivered(message) =>
        match Admit(message, f.from, parse)
        case Pass => Step(Success(Some(message)), f.polled, fields)
        case Fail(e) => Step(Failure(ReaderWrap(e)), f.polled, fields.(stopped := true))
  }

  /** When both queues are empty, read returns null, polls both queues, leaves the selector flipped and the stop flag clear. */
  lemma BothQueuesEmpty(useRta: bool, parse: string -> ParseVerdict)
    ensures ReadFrom(ReaderState(false, useRta), NoMessage, NoMessage, parse)
      == Step(Success(None), [QueueOf(useRta), QueueOf(!useRta)], ReaderState(false, !useRta))
  {
  }

  /** A blank message stops the reader with MalformedXml naming the queue it came from. */
  lemma BlankMessageStops(st: ReaderState, rta: Receipt, mas: Receipt, parse: string -> ParseVerdict)
    requires !st.stopped
    requires FetchFrom(st.useRta, rta, mas).receipt.Delivered? && Trim(FetchFrom(st.useRta, rta, mas).receipt.text) == []
    ensures ReadFrom(st, rta, mas, parse).outcome ==
      Failure(MalformedXml(EmptyMessageHead + QueueName(FetchFrom(st.useRta, rta, mas).from), FetchFrom(st.useRta, rta, mas).receipt.text))
    ensures ReadFrom(st, rta, mas, parse).next.stopped
  {
  }

  /** The inputs of one read: what each queue would deliver. */
  datatype Poll = Poll(rta: Receipt, mas: Receipt)

  /** The outcomes of successive reads, each starting from the fields the previous one left. */
  function Run(st: ReaderState, polls: seq<Poll>, parse: string -> ParseVerdict): (outs: seq<Result<Option<string>, Err>>)
    ensures |outs| == |polls|
    decreases |polls|
  {
    if polls == [] then []
    else
      var s := ReadFrom(st, polls[0].rta, polls[0].mas, parse);
      [s.outcome] + Run(s.next, polls[1..], parse)
  }

  /** A stopped reader returns null to every later read. */
  lemma {:induction false} StoppedReaderStaysStopped(st: ReaderState, polls: seq<Poll>, parse: string -> ParseVerdict)
    requires st.stopped
    ensures forall i :: 0 <= i < |polls| ==> Run(st, polls, parse)[i] == Success(None)
    decreases |polls|
  {
    if polls != [] {
      StoppedReaderStaysStopped(st, polls[1..], parse);
    }
  }

  /** In any sequence of reads, only the first failure is reported; every read after it returns null. */
  lemma {:induction false} AtMostOneFailure(st: ReaderState, polls: seq<Poll>, parse: string -> ParseVerdict, i: nat)
    requires i < |polls| && Run(st, polls, parse)[i].Failure?
    ensures forall j :: i < j < |polls| ==> Run(st, polls, parse)[j] == Success(None)
    decreases |polls|
  {
    var s := ReadFrom(st, polls[0].rta, polls[0].mas, parse);
    assert Run(st, polls, parse) == [s.outcome] + Run(s.next, polls[1..], parse);
    if i == 0 {
      StoppedReaderStaysStopped(s.next, polls[1..], parse);
    } else {
      AtMostOneFailure(s.next, polls[1..], parse, i - 1);
    }
  }

  /** IBMMQItemReader with its two fields. */
  class ItemReader {
    var stopProcessing: bool
    var useRtaQueue: bool

    /** The fields as a value. */
    function State(): ReaderState
      reads this
    {
      ReaderState(stopProcessing, useRtaQueue)
    }

    /** A new reader is running and designates the RTA queue. */
    constructor ()
      ensures State() == ReaderState(false, true)
    {
      stopProcessing := false;
      useRtaQueue := true;
    }

    /** isStopped: whether the reader has stopped handing out messages. */
    function IsStopped(): (b: bool)
      reads this
      ensures b == State().stopped
    {
      stopProcessing
    }

    /** reset: clears the stop flag and designates the RTA queue again. */
    method Reset()
      modifies this
      ensures State() == ReaderState(false, true)
    {
      stopProcessing := false;
      useRtaQueue := true;
    }

    /**
     * handleInvalidData: sets the stop flag and gives back the MalformedXml it
     * throws; it never completes normally. (The error-file write is not part
     * of this model.)
     */
    method HandleInvalidData(errorMessage: string, invalidData: string) returns (thrown: Err)
      modifies this
      ensures IsStopped() && useRtaQueue == old(useRtaQueue)
      ensures thrown == MalformedXml(errorMessage, invalidData)
    {
      stopProcessing := true;
      thrown := MalformedXml(errorMessage, invalidData);
    }

    /** validateXmlFormat: cleans the payload, parses it, and on rejection goes through handleInvalidData. */
    method ValidateXmlFormat(xmlContent: string, parse: string -> ParseVerdict) returns (o: Outcome<Err>)
      modifies this
      ensures o == XmlFormatCheck(xmlContent, parse)
      ensures State() == old(State()).(stopped := old(stopProcessing) || o.Fail?)
    {
      var cleanedXml := CleanXmlContent(xmlContent);
      var verdict := parse(cleanedXml);
      if verdict.NotWellFormed? {
        var errorDetails := AnalyzeXmlError(xmlContent, verdict.message, verdict.exceptionType);
        var thrown := HandleInvalidData(errorDetails, xmlContent);
        return Fail(thrown);
      }
      return Pass;
    }

    /** The receives of read: the designated queue, then, only when it has no message, the other one after flipping the selector. */
    method Receive(rta: Receipt, mas: Receipt) returns (receipt: Receipt, queue: Queue, polled: seq<Queue>)
      modifies this
      ensures Fetch(receipt, queue, polled, useRtaQueue) == FetchFrom(old(useRtaQueue), rta, mas)
      ensures stopProcessing == old(stopProcessing)
    {
      queue := QueueOf(useRtaQueue);
      polled := [queue];
      receipt := ReceiptOf(queue, rta, mas);
      if receipt.NoMessage? {
        useRtaQueue := !useRtaQueue;
        queue := QueueOf(useRtaQueue);
        polled := polled + [queue];
        receipt := ReceiptOf(queue, rta, mas);
      }
    }

    /** The checks of read on a received message, and the stop flag its catch clause sets. */
    method AdmitMessage(message: string, queue: Queue, parse: string -> ParseVerdict) returns (o: Outcome<Err>)
      modifies this
      ensures o == Admit(message, queue, parse)
      ensures State() == old(State()).(stopped := old(stopProcessing) || o.Fail?)
    {
      if Trim(message) == [] {
        var thrown := HandleInvalidData(EmptyMessageHead + QueueName(queue), message);
        return Fail(thrown);
      }
      o := ValidateXmlFormat(message, parse);
    }

    /**
     * read: the raw message, null (None) at the end of both queues or once
     * stopped, or the data error it throws. The queues it polled are returned
     * so that a read which polls nothing is visible.
     */
    method Read(rta: Receipt, mas: Receipt, parse: string -> ParseVerdict)
      returns (outcome: Result<Option<string>, Err>, polled: seq<Queue>)
      modifies this
      ensures Step(outcome, polled, State()) == ReadFrom(old(State()), rta, mas, parse)
    {
      if stopProcessing {
        return Success(None), [];
      }
      var receipt, queue;
      receipt, queue, polled := Receive(rta, mas);
      match receipt
      case NoMessage =>
        outcome := Success(None);
      case ReceiveFailed(reason) =>
        stopProcessing := true;
        outcome := Failure(ReaderWrap(Other(reason)));
      case Delivered(message) =>
        var check := AdmitMessage(message, queue, parse);
        if check.Fail? {
          stopProcessing := true;
          outcome := Failure(ReaderWrap(check.error));
        } else {
          outcome := Success(Some(message));
        }
    }
  }
}
