# policia-batch: a Dafny model of the ingest-and-validate pipeline

policia-batch is a Spring Batch job. It reads XML messages about police
officers from two IBM MQ queues, checks them and turns them into
`PoliciaData` records. A single bad message must stop the whole job. This
project models that pipeline in Dafny and proves what each stage promises.

The stages, each in its own module:

- **Reader** (`reader.dfy`, with `sanitizer.dfy`): `IBMMQItemReader`.
  - The class `Reader.ItemReader` keeps the reader's two fields, `stopProcessing` and the sticky selector `useRtaQueue`.
  - `Read` tries the designated queue first. Only when that queue has no message does it flip the selector and try the other queue.
  - A blank message, or one that is not well-formed once cleaned, stops the reader for good.
  - `Read` hands on the raw message it received, not the cleaned text.
  - `Read` is proved against the pure function `ReadFrom`. `Run` chains calls of `ReadFrom`, and the lemmas about a whole stream of reads are stated over `Run`.
  - `IsStopped` is the getter `isStopped`; the contract of `HandleInvalidData` is stated with it.
  - What each receive delivers is a parameter, a `Receipt` per queue: a message, no message (`null`), or an exception.
  - The DOM well-formedness check is an injected function of the cleaned text.
- **Sanitizer** (`sanitizer.dfy`): `cleanXmlContent` and `analyzeXmlError`.
  - `cleanXmlContent` is the `CleanXmlContent` method. Its loop over the prefixes, which stops at the first match, is the method `StripFirstPrefix`. The method is proved equal to the function `Sanitize`.
  - `Sanitize` trims, removes the first matching prefix from a fixed list and re-trims, removes one byte-order mark, and cuts everything before the first `<`.
  - A second cleaning pass changes nothing when the output holds a `<`. Without a `<`, an output may still change on a second pass: two lemmas give such inputs, a BOM followed by a space, and a doubled prefix.
  - The payload-dependent facts `analyzeXmlError` reports are the record `Diagnosis`. The text it builds is `AnalyzeXmlError`.
- **Validation** (`validation.dfy`): `XmlValidationService`.
  - The presence constraints are checked first, then the ID pattern `POL` followed by six digits, then case-insensitive membership of the rank in the seven valid ranks.
  - The first failing stage decides the error.
  - Every rejection carries the original XML as its payload.
  - Unmarshalling failures are classified as `MalformedXml`, other unexpected failures as `InvalidData`.
- **Record** (`policia_data.dfy`): the mutable bean `PoliciaData`, with its constructors and setters, and its `@NotBlank`/`@NotNull` constraints.
- **Processor** (`processor.dfy`): `PoliciaDataProcessor`.
  - It validates and parses the message.
  - It enriches the bean in place: the rank is upper-cased and a null or blank status becomes `ACTIVO`.
  - It wraps every failure as `InvalidData`.
- **Skip policy** (`skip_policy.dfy`): `CustomSkipPolicy.shouldSkip`. A data error is never skipped; any other error is skipped while fewer than three items have been skipped.
- **Pipeline** (`pipeline.dfy`): the composition.
  - Every error the reader or the processor throws is a data error, so the skip policy refuses it at every count.
  - After a failed read, every later read returns null.

The exception classes are the datatype `Errors.Err`. `MalformedXml` counts as
`InvalidData`, because `MalformedXmlException` extends `InvalidDataException`.

## Model

| member | source | states |
|---|---|---|
| SkipPolicy.ShouldSkip | src/main/java/com/policia/batch/config/CustomSkipPolicy.java:14-35 | a data error is never skipped; any other error is skipped iff the skip count is below 3 |
| SkipPolicy.RefusalIsMonotone | src/main/java/com/policia/batch/config/CustomSkipPolicy.java:28 | an error refused at count n is refused at every count m >= n |
| SkipPolicy.SkippableCounts | src/main/java/com/policia/batch/config/CustomSkipPolicy.java:28-34 | a transient error is skippable exactly at counts 0, 1 and 2 |
| SkipPolicy.SkipsBeforeRefusal | src/main/java/com/policia/batch/config/CustomSkipPolicy.java:14-35 | the number of errors skipped in a run before the first refusal: each of them is skipped at its running count, all are transient, and the next error, if any, is refused |
| SkipPolicy.AtMostThreeSkips | src/main/java/com/policia/batch/config/CustomSkipPolicy.java:28 | starting from any count, no run of errors gets more than three skips |
| SkipPolicy.FourthTransientErrorIsFatal | src/main/java/com/policia/batch/config/CustomSkipPolicy.java:28-34 | from count 0, the fourth transient error is refused |
| SkipPolicy.DataErrorHalts | src/main/java/com/policia/batch/config/CustomSkipPolicy.java:17-24 | no run gets past a data error: the skips stop before it |
| Model.PoliciaData.Empty | src/main/java/com/policia/batch/model/PoliciaData.java:24 | the no-argument constructor leaves every field null |
| Model.PoliciaData.constructor | src/main/java/com/policia/batch/model/PoliciaData.java:26-32 | the five-argument constructor stores each argument in its field unchanged |
| Model.PoliciaData.SetId | src/main/java/com/policia/batch/model/PoliciaData.java:39-41 | changes id and no other field |
| Model.PoliciaData.SetNombre | src/main/java/com/policia/batch/model/PoliciaData.java:48-50 | changes nombre and no other field |
| Model.PoliciaData.SetRango | src/main/java/com/policia/batch/model/PoliciaData.java:57-59 | changes rango and no other field |
| Model.PoliciaData.SetUnidad | src/main/java/com/policia/batch/model/PoliciaData.java:66-68 | changes unidad and no other field |
| Model.PoliciaData.SetEstado | src/main/java/com/policia/batch/model/PoliciaData.java:75-77 | changes estado and no other field |
| Model.NotBlankMeansVisibleChar | src/main/java/com/policia/batch/model/PoliciaData.java:11-15 | @NotBlank holds iff the value is non-null and has a char above U+0020 |
| Model.ConstraintViolations | src/main/java/com/policia/batch/model/PoliciaData.java:11-21 | the id, nombre and rango violations occur iff id is blank, nombre is blank, rango is null; no other violation; each at most once; empty iff all three constraints hold |
| Model.EmptyRangoPassesNotNull | src/main/java/com/policia/batch/model/PoliciaData.java:17-18 | an empty rango is not a violation |
| Model.UnidadAndEstadoUnconstrained | src/main/java/com/policia/batch/model/PoliciaData.java:20-21 | changing unidad or estado never changes the violations |
| Validation.EveryViolationListed | src/main/java/com/policia/batch/service/XmlValidationService.java:95-99 | each violation's "[path: message] " entry occurs in the accumulated text |
| Validation.ViolationMessage | src/main/java/com/policia/batch/service/XmlValidationService.java:93-99 | the StringBuilder loop yields the header followed by every violation's entry, in order |
| Validation.IdFormatCheck | src/main/java/com/policia/batch/service/XmlValidationService.java:114-118 | passes iff the id is null or is POL followed by six digits; otherwise InvalidData naming the id, with the XML as payload |
| Validation.IdPatternExamples | src/main/java/com/policia/batch/service/XmlValidationService.java:114 | POL123456 matches; 12345, pol123456, POL1234567 and POL12345A do not |
| Validation.IsValidRank | src/main/java/com/policia/batch/service/XmlValidationService.java:121-128 | the flag-and-break loop finds a match iff the rank equals a valid rank, ignoring case; a null rank never matches |
| Validation.RankListing | src/main/java/com/policia/batch/service/XmlValidationService.java:130-134 | the rejection lists AGENTE, CABO, SARGENTO, TENIENTE, CAPITAN, MAYOR, CORONEL in that order, separated by ", " |
| Validation.RankMessage | src/main/java/com/policia/batch/service/XmlValidationService.java:130-131 | the rejection opens with "Rango inválido: " and the rank, or "null" for a missing one, and ends with the list of valid ranks |
| Validation.RanksAreUpperCase | src/main/java/com/policia/batch/service/XmlValidationService.java:121 | every valid rank is its own upper case |
| Validation.AcceptedRankCanonical | src/main/java/com/policia/batch/service/XmlValidationService.java:121-128 | an accepted rank is non-null and upper-cases to one of the valid ranks exactly |
| Validation.AdditionalRulesVerdict | src/main/java/com/policia/batch/service/XmlValidationService.java:112-136 | passes iff the id rule and the rank rule hold; a failure is InvalidData carrying the XML |
| Validation.RulesVerdict | src/main/java/com/policia/batch/service/XmlValidationService.java:89-107 | passes iff every presence constraint, the id rule and the rank rule hold; a failure is InvalidData carrying the XML |
| Validation.FirstFailingStageDecides | src/main/java/com/policia/batch/service/XmlValidationService.java:89-135 | presence, then id format, then rank: the first stage that fails gives the error |
| Validation.AllViolationsReported | src/main/java/com/policia/batch/service/XmlValidationService.java:92-103 | every violated constraint is named in the one error raised |
| Validation.ValidateAdditionalBusinessRules | src/main/java/com/policia/batch/service/XmlValidationService.java:112-136 | the bean's verdict is AdditionalRulesVerdict of its contents |
| Validation.ValidateBusinessRules | src/main/java/com/policia/batch/service/XmlValidationService.java:89-107 | the bean's verdict is RulesVerdict of its contents |
| Validation.EventMessage | src/main/java/com/policia/batch/service/XmlValidationService.java:50-55 | the message is exactly the fixed text naming the line and then the column, followed by the event's own message |
| Validation.ClassifyUnmarshalFailure | src/main/java/com/policia/batch/service/XmlValidationService.java:46-83 | every unmarshalling failure is a data error carrying the XML; it is MalformedXml unless it was unexpected |
| Validation.ValidateAndParseXml | src/main/java/com/policia/batch/service/XmlValidationService.java:39-84 | a new bean holding the unmarshalled record is returned iff unmarshalling succeeds and every rule holds; any failure is a data error carrying the XML |
| Processor.Enriched | src/main/java/com/policia/batch/processor/PoliciaDataProcessor.java:50-61 | id, nombre and unidad are kept; a rank stays null or equals its old value ignoring case and is its own upper case; a blank or null status becomes ACTIVO, and a non-blank one is kept |
| Processor.EnrichIdempotent | src/main/java/com/policia/batch/processor/PoliciaDataProcessor.java:50-61 | enriching twice is enriching once |
| Processor.EnrichedRecordIsCanonical | src/main/java/com/policia/batch/processor/PoliciaDataProcessor.java:30-36 | a valid record, once enriched, has one of the valid ranks exactly, a non-blank status, and still satisfies every rule |
| Processor.EnrichPoliciaData | src/main/java/com/policia/batch/processor/PoliciaDataProcessor.java:50-61 | updates the bean in place to the enriched record |
| Processor.ProcessorWrap | src/main/java/com/policia/batch/processor/PoliciaDataProcessor.java:38-44 | a data error passes unchanged; any other error becomes InvalidData carrying the message |
| Processor.Process | src/main/java/com/policia/batch/processor/PoliciaDataProcessor.java:25-45 | succeeds iff the message unmarshals and satisfies every rule, returning the enriched bean with a valid rank and a non-blank status; every failure is a data error carrying the message; an unmarshalling failure gives its classified error, and a rule failure gives the rules' error |
| JavaText.Trim | src/main/java/com/policia/batch/reader/IBMMQItemReader.java:77 | the result has no char up to U+0020 at either end, is empty iff the input is all such chars, and is a contiguous part of the input |
| JavaText.TrimStripsOnlyEnds | src/main/java/com/policia/batch/reader/IBMMQItemReader.java:77 | trimming removes only chars up to U+0020 at the two ends: the result sits in the input with nothing but such chars before and after it |
| JavaText.NatToStringReadsBack | src/main/java/com/policia/batch/reader/IBMMQItemReader.java:221 | the decimal text of a count reads back to that count, and has no leading zero unless it is "0" |
| JavaText.ToUpperIdempotent | src/main/java/com/policia/batch/processor/PoliciaDataProcessor.java:53 | upper-casing twice is upper-casing once |
| Sanitizer.FirstPrefixFrom | src/main/java/com/policia/batch/reader/IBMMQItemReader.java:181-192 | the first prefix in list order that the text starts with, and no earlier one matches |
| Sanitizer.StripPrefix | src/main/java/com/policia/batch/reader/IBMMQItemReader.java:186-192 | with the first matching prefix in list order, the result is the rest after that prefix, trimmed; with no match, the text is unchanged; the result is a contiguous part of the input and keeps it trimmed |
| Sanitizer.FirstMatchIsFirstPrefix | src/main/java/com/policia/batch/reader/IBMMQItemReader.java:186-192 | the prefix the loop stops at is the first in list order that the text starts with, and no match means no prefix fits |
| Sanitizer.StripBom | src/main/java/com/policia/batch/reader/IBMMQItemReader.java:195-198 | removes exactly one leading U+FEFF, if there is one |
| Sanitizer.CutToMarker | src/main/java/com/policia/batch/reader/IBMMQItemReader.java:201-208 | with a '<', the result starts with it and is the suffix from the first '<'; without one, the text is unchanged |
| Sanitizer.Sanitize | src/main/java/com/policia/batch/reader/IBMMQItemReader.java:173-211 | the cleaned text is never longer than the input, and when it holds a '<' it opens with one |
| Sanitizer.SanitizeCutsToFirstMarker | src/main/java/com/policia/batch/reader/IBMMQItemReader.java:194-210 | the output holds a '<' iff the cleaned text does, and then it is the suffix from the first '<'; otherwise the cleaned text is returned |
| Sanitizer.SanitizeOnlyRemoves | src/main/java/com/policia/batch/reader/IBMMQItemReader.java:173-211 | the output is a contiguous part of the input |
| Sanitizer.MarkupOutputIsTrimmed | src/main/java/com/policia/batch/reader/IBMMQItemReader.java:178-210 | an output holding '<' opens with it and has no whitespace at either end |
| Sanitizer.MarkupIsFixed | src/main/java/com/policia/batch/reader/IBMMQItemReader.java:173-211 | a trimmed text opening with '<' is left unchanged |
| Sanitizer.SanitizeIdempotentOnMarkup | src/main/java/com/policia/batch/reader/IBMMQItemReader.java:173-211 | cleaning an output that holds '<' changes nothing |
| Sanitizer.BomThenSpaceNeedsSecondPass | src/main/java/com/policia/batch/reader/IBMMQItemReader.java:178-198 | BOM, space, "abc" cleans to " abc", which cleans again to "abc": cleaning is not idempotent in general |
| Sanitizer.DoubledPrefixNeedsSecondPass | src/main/java/com/policia/batch/reader/IBMMQItemReader.java:186-192 | "Trx:MSG:abc" cleans to "MSG:abc", which cleans again to "abc": only one prefix is removed per pass |
| Sanitizer.SanitizeStripsTransactionPrefix | src/main/java/com/policia/batch/reader/IBMMQItemReader.java:186-192 | "Trx:" in front of a document is removed |
| Sanitizer.StripFirstPrefix | src/main/java/com/policia/batch/reader/IBMMQItemReader.java:181-192 | the loop over the prefixes, stopping at the first match, yields exactly StripPrefix of the trimmed text |
| Sanitizer.CleanXmlContent | src/main/java/com/policia/batch/reader/IBMMQItemReader.java:173-211 | yields exactly Sanitize of the content; empty content is returned as it is |
| Sanitizer.Diagnose | src/main/java/com/policia/batch/reader/IBMMQItemReader.java:216-258 | reports the payload's length, first char, whether its trim fails to open with '<', the position of the first '<' (when after the start), and a control char at the start other than \n, \r, \t |
| Sanitizer.AnalyzeXmlError | src/main/java/com/policia/batch/reader/IBMMQItemReader.java:216-258 | the diagnosis opens with the header, the exception's message and its class name, and ends with the first 100 chars of the payload, followed by "..." when it is longer |
| Reader.FetchFrom | src/main/java/com/policia/batch/reader/IBMMQItemReader.java:49-70 | the designated queue is polled first; the other one is polled iff the first has no message; the selector ends up designating the queue last polled |
| Reader.FailoverFindsWaitingMessage | src/main/java/com/policia/batch/reader/IBMMQItemReader.java:55-70 | a message on either queue is received unless the first receive throws; a message on the designated queue leaves the selector unchanged |
| Reader.XmlFormatCheck | src/main/java/com/policia/batch/reader/IBMMQItemReader.java:136-168 | passes iff the parser accepts the cleaned text; a rejection is MalformedXml carrying the diagnosis and the raw payload |
| Reader.Admit | src/main/java/com/policia/batch/reader/IBMMQItemReader.java:76-82 | passes iff the message is not blank and is well-formed once cleaned; a blank message is MalformedXml naming the queue; every rejection carries the message |
| Reader.ReaderWrap | src/main/java/com/policia/batch/reader/IBMMQItemReader.java:86-96 | a data error is rethrown unchanged; any other error becomes InvalidData with an empty payload |
| Reader.ReadFrom | src/main/java/com/policia/batch/reader/IBMMQItemReader.java:40-96 | once stopped, null with nothing polled and nothing changed; otherwise null iff both polls find nothing, the raw message iff it is admitted; a receive that throws fails with the critical-read InvalidData and an empty payload; a rejected message fails with Admit's error; stopped afterwards iff it failed; every failure a data error |
| Reader.BothQueuesEmpty | src/main/java/com/policia/batch/reader/IBMMQItemReader.java:57-69 | with both queues empty: null, both queues polled, selector flipped, not stopped |
| Reader.BlankMessageStops | src/main/java/com/policia/batch/reader/IBMMQItemReader.java:77-79 | a blank message fails with MalformedXml naming its queue and carrying it, and stops the reader |
| Reader.StoppedReaderStaysStopped | src/main/java/com/policia/batch/reader/IBMMQItemReader.java:42-45 | a stopped reader returns null to every later read |
| Reader.AtMostOneFailure | src/main/java/com/policia/batch/reader/IBMMQItemReader.java:86-96 | after a failed read, every later read returns null |
| Reader.ItemReader.IsStopped | src/main/java/com/policia/batch/reader/IBMMQItemReader.java:286-288 | reports the stop flag |
| Reader.ItemReader.constructor | src/main/java/com/policia/batch/reader/IBMMQItemReader.java:29-37 | a new reader is not stopped and designates the RTA queue |
| Reader.ItemReader.Reset | src/main/java/com/policia/batch/reader/IBMMQItemReader.java:293-296 | clears the stop flag and designates the RTA queue |
| Reader.ItemReader.HandleInvalidData | src/main/java/com/policia/batch/reader/IBMMQItemReader.java:263-281 | sets the stop flag, leaves the selector, and throws MalformedXml with the given message and data |
| Reader.ItemReader.ValidateXmlFormat | src/main/java/com/policia/batch/reader/IBMMQItemReader.java:136-168 | gives XmlFormatCheck's verdict and sets the stop flag iff it fails |
| Reader.ItemReader.Receive | src/main/java/com/policia/batch/reader/IBMMQItemReader.java:48-70 | performs the receives FetchFrom describes and updates the selector as it says |
| Reader.ItemReader.AdmitMessage | src/main/java/com/policia/batch/reader/IBMMQItemReader.java:76-82 | gives Admit's verdict and sets the stop flag iff it fails |
| Reader.ItemReader.Read | src/main/java/com/policia/batch/reader/IBMMQItemReader.java:40-96 | returns what ReadFrom says and leaves the fields as ReadFrom says |
| Pipeline.NoWrappedFailureIsSkippable | src/main/java/com/policia/batch/reader/IBMMQItemReader.java:86-96 | whatever the reader or the processor catches, the error they throw is refused by shouldSkip at every count |
| Pipeline.ReadFailureIsDataError | src/main/java/com/policia/batch/reader/IBMMQItemReader.java:86-96 | every failure in a stream of reads is a data error |
| Pipeline.ReadFailureEndsTheStream | src/main/java/com/policia/batch/config/CustomSkipPolicy.java:17-24 | a failed read is never skipped, and every later read returns null |

## Left out

- Queue transport: the JMS templates, `receiveAndConvert` and connection setup are not modelled. What each receive delivers is a parameter.
- XML parsing: the DOM builder with DOCTYPE disabled and JAXB unmarshalling are foreign libraries. Each is an injected function from text to a verdict or to the record it extracts.
- The error file that `handleInvalidData` writes, whose name comes from the clock, is not modelled. Neither is the logging. Neither affects control flow.
- `simulateQueueMessage` and its counters are not modelled. They are development-only code that nothing calls.
- Spring wiring, the error listener, the log-only writer and the application bootstrap are not modelled.
- Sanitizer.AnalyzeXmlError: the StringBuilder appends are written as one concatenation. `Exception.getMessage()` and the class name are parameters, and a null message is not distinguished from a string.
- Sanitizer.AnalyzeXmlError: its contract states the opening lines and the closing excerpt. The findings between them are stated as the facts `Diagnose` reports, not as text.
- Sanitizer.CleanXmlContent: a null input is not modelled, because Dafny strings are never null. The empty input is modelled.
- Processor.Enriched: `toUpperCase` and `equalsIgnoreCase` use ASCII case mapping. Locale-dependent and non-ASCII case mapping are not modelled.
- JavaText.Trim: `trim` removes chars up to U+0020, and these are the same whether text is counted in UTF-16 code units or in Unicode scalar values.
- Sanitizer.Diagnose: a Dafny `char` is a Unicode scalar value, while Java counts UTF-16 code units. For text with characters outside the Basic Multilingual Plane, the reported length, the position of the first '<', the code of the first char and the 20- and 100-char excerpts count such a character once, where Java counts it twice (a surrogate pair) and may cut an excerpt between the two halves.
- Model.ConstraintViolations: Bean Validation returns a `HashSet` in unspecified order. The model lists violations in declaration order: id, nombre, rango.
- SkipPolicy.SkipsBeforeRefusal: how Spring Batch counts skips is modelled as a count that rises by one with each skip.
- The getters of `PoliciaData` are not separate members. They are the field reads that `Model.PoliciaData.Value` collects.
- Reader.ItemReader.Read: receiving from a queue yields a `Receipt`. A non-string message, which would fail the cast, counts as a receive that throws.
