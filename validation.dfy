/**
 * XmlValidationService: unmarshals a message into a PoliciaData, then runs
 * the presence constraints, the ID format rule and the rank rule, in that
 * order, and classifies every failure as InvalidData or MalformedXml.
 */
module Validation {
  import opened Wrappers
  import opened JavaText
  import opened Errors
  import opened Model

  /** The ranks accepted by the rank rule, in declaration order. */
  const Ranks: seq<string> := ["AGENTE", "CABO", "SARGENTO", "TENIENTE", "CAPITAN", "MAYOR", "CORONEL"]

  const ViolationsHeader := "Errores de validación de datos: "
  const IdFormatMessage := "ID de policía debe tener formato POL seguido de 6 dígitos: "
  const RankMessageHead := "Rango inválido: "

  // ---------------------------------------------------------------- presence

  /** How one violation is written into the message: "[path: message] ". */
  function Entry(v: Violation): string {
    "[" + v.path + ": " + v.message + "] "
  }

  /** The entries of all violations, in order. */
  function Entries(vs: seq<Violation>): string {
    if vs == [] then "" else Entries(vs[..|vs| - 1]) + Entry(vs[|vs| - 1])
  }

  /** Every violation's entry appears in the rendered entries. */
  lemma {:induction false} EveryViolationListed(vs: seq<Violation>, j: nat)
    requires j < |vs|
    ensures IsInfix(Entry(vs[j]), Entries(vs))
  {
    var init := vs[..|vs| - 1];
    assert Entries(vs) == Entries(init) + Entry(vs[|vs| - 1]);
    if j == |vs| - 1 {
      assert OccursAt(Entry(vs[j]), Entries(vs), |Entries(init)|);
    } else {
      EveryViolationListed(init, j);
      InfixOfExtension(Entry(init[j]), Entries(init), Entry(vs[|vs| - 1]));
    }
  }

  /**
   * The StringBuilder loop of validateBusinessRules: one message holding the
   * header and then an entry per violation.
   */
  method ViolationMessage(vs: seq<Violation>) returns (msg: string)
    ensures msg == ViolationsHeader + Entries(vs)
  {
    msg := ViolationsHeader;
    for i := 0 to |vs|
      invariant msg == ViolationsHeader + Entries(vs[..i])
    {
      assert vs[..i + 1][..i] == vs[..i];
      msg := msg + Entry(vs[i]);
    }
    assert vs[..|vs|] == vs;
  }

  // --------------------------------------------------------------- ID format

  /** `id.matches("^POL\\d{6}$")`: exactly "POL" followed by six ASCII digits. */
  predicate MatchesIdPattern(id: string) {
    |id| == 9 && id[..3] == "POL" && forall k :: 3 <= k < 9 ==> '0' <= id[k] <= '9'
  }

  /** The ID rule: a null ID passes it (the presence constraint has already caught it). */
  function IdFormatCheck(id: Option<string>, xmlContent: string): (o: Outcome<Err>)
    ensures o.Pass? <==> id.None? || MatchesIdPattern(id.value)
    ensures o.Fail? ==> o.error == InvalidData(IdFormatMessage + id.value, xmlContent)
  {
    if id.Some? && !MatchesIdPattern(id.value) then
      Fail(InvalidData(IdFormatMessage + id.value, xmlContent))
    else
      Pass
  }

  /** The examples of the ID rule: the canonical form passes; a bare number, a lower-case prefix, or a seventh digit fail. */
  lemma IdPatternExamples()
    ensures MatchesIdPattern("POL123456")
    ensures !MatchesIdPattern("12345")
    ensures !MatchesIdPattern("pol123456")
    ensures !MatchesIdPattern("POL1234567")
    ensures !MatchesIdPattern("POL12345A")
  {
    assert "pol123456"[..3] != "POL" by { assert "pol123456"[0] == 'p'; }
    assert "POL12345A"[8] == 'A';
  }

  // -------------------------------------------------------------------- rank

  /** `rango.equalsIgnoreCase(value)` for a possibly null value: null never matches. */
  predicate RankMatches(rango: string, value: Option<string>) {
    value.Some? && EqualsIgnoreCase(rango, value.value)
  }

  /** The rank rule: the rank equals one of Ranks, ignoring case. */
  predicate RankAccepted(value: Option<string>) {
    exists i :: 0 <= i < |Ranks| && RankMatches(Ranks[i], value)
  }

  /** The loop over the valid ranks that sets a flag and breaks at the first match. */
  method IsValidRank(value: Option<string>) returns (found: bool)
    ensures found <==> RankAccepted(value)
  {
    found := false;
    for i := 0 to |Ranks|
      invariant !found
      invariant forall j :: 0 <= j < i ==> !RankMatches(Ranks[j], value)
    {
      if RankMatches(Ranks[i], value) {
        found := true;
        break;
      }
    }
  }

  /** The rejection message names the rank (null printed as "null") and lists the valid ones. */
  function RankMessage(value: Option<string>): (r: string)
    ensures StartsWith(r, RankMessageHead + (if value.Some? then value.value else "null"))
    ensures |r| >= |Join(Ranks, ", ")| && r[|r| - |Join(Ranks, ", ")|..] == Join(Ranks, ", ")
  {
    var head := RankMessageHead + NullToString(if value.Some? then value.value else "", value.None?);
    var r := head + ". Rangos válidos: " + Join(Ranks, ", ");
    assert r[..|head|] == head;
    assert r[|r| - |Join(Ranks, ", ")|..] == Join(Ranks, ", ");
    r
  }

  /** The valid ranks are listed in declaration order, separated by ", ". */
  lemma RankListing()
    ensures var s := ", ";
      Join(Ranks, s) == "AGENTE" + s + "CABO" + s + "SARGENTO" + s + "TENIENTE" + s + "CAPITAN" + s + "MAYOR" + s + "CORONEL"
  {
    assert Ranks[6..] == ["CORONEL"];
    assert Ranks[5..][1..] == Ranks[6..];
    assert Ranks[4..][1..] == Ranks[5..];
    assert Ranks[3..][1..] == Ranks[4..];
    assert Ranks[2..][1..] == Ranks[3..];
    assert Ranks[1..][1..] == Ranks[2..];
  }

  /** Every valid rank is written in upper case. */
  lemma RanksAreUpperCase(i: nat)
    requires i < |Ranks|
    ensures ToUpper(Ranks[i]) == Ranks[i]
  {
  }

  /** An accepted rank upper-cases to one of Ranks exactly. */
  lemma AcceptedRankCanonical(value: Option<string>)
    requires RankAccepted(value)
    ensures value.Some? && ToUpper(value.value) in Ranks
  {
    var i :| 0 <= i < |Ranks| && RankMatches(Ranks[i], value);
    EqualsIgnoreCaseUpper(Ranks[i], value.value);
    RanksAreUpperCase(i);
  }

  // -------------------------------------------------------------- the rules

  /** Every business rule holds of the record. */
  predicate SatisfiesRules(r: Record) {
    && ConstraintViolations(r) == []
    && (r.id.None? || MatchesIdPattern(r.id.value))
    && RankAccepted(r.rango)
  }

  /** validateAdditionalBusinessRules: the ID rule, then the rank rule. */
  function AdditionalRulesVerdict(r: Record, xmlContent: string): (o: Outcome<Err>)
    ensures o.Pass? <==> (r.id.None? || MatchesIdPattern(r.id.value)) && RankAccepted(r.rango)
    ensures o.Fail? ==> o.error.InvalidData? && o.error.payload == xmlContent
  {
    match IdFormatCheck(r.id, xmlContent)
    case Fail(e) => Fail(e)
    case Pass =>
      if RankAccepted(r.rango) then Pass
      else Fail(InvalidData(RankMessage(r.rango), xmlContent))
  }

  /**
   * validateBusinessRules: the presence constraints (all violations reported
   * in one error), then the additional rules. The first failing stage decides.
   */
  function RulesVerdict(r: Record, xmlContent: string): (o: Outcome<Err>)
    ensures o.Pass? <==> SatisfiesRules(r)
    ensures o.Fail? ==> o.error.InvalidData? && o.error.payload == xmlContent
  {
    var vs := ConstraintViolations(r);
    if vs != [] then Fail(InvalidData(ViolationsHeader + Entries(vs), xmlContent))
    else AdditionalRulesVerdict(r, xmlContent)
  }

  /**
   * The stages run in order and the first failing one decides: its message
   * opens with that stage's text, so the later stages never ran.
   */
  lemma FirstFailingStageDecides(r: Record, xmlContent: string)
    ensures ConstraintViolations(r) != [] ==>
      StartsWith(RulesVerdict(r, xmlContent).error.message, ViolationsHeader)
    ensures ConstraintViolations(r) == [] && r.id.Some? && !MatchesIdPattern(r.id.value) ==>
      RulesVerdict(r, xmlContent).error.message == IdFormatMessage + r.id.value
    ensures ConstraintViolations(r) == [] && (r.id.None? || MatchesIdPattern(r.id.value)) && !RankAccepted(r.rango) ==>
      RulesVerdict(r, xmlContent).error.message == RankMessage(r.rango)
  {
  }

  /** Every violated presence constraint is named in the one error raised. */
  lemma AllViolationsReported(r: Record, xmlContent: string, v: Violation)
    requires v in ConstraintViolations(r)
    ensures RulesVerdict(r, xmlContent).Fail?
    ensures IsInfix(Entry(v), RulesVerdict(r, xmlContent).error.message)
  {
    var vs := ConstraintViolations(r);
    var j :| 0 <= j < |vs| && vs[j] == v;
    EveryViolationListed(vs, j);
    var msg := ViolationsHeader + Entries(vs);
    assert RulesVerdict(r, xmlContent).error.message == msg;
    SuffixIsInfix(msg, |ViolationsHeader|);
    assert msg[|ViolationsHeader|..] == Entries(vs);
    InfixTransitive(Entry(v), Entries(vs), msg);
  }

  /** validateAdditionalBusinessRules, over the bean. */
  method ValidateAdditionalBusinessRules(data: PoliciaData, xmlContent: string) returns (o: Outcome<Err>)
    ensures o == AdditionalRulesVerdict(data.Value(), xmlContent)
  {
    if data.id.Some? && !MatchesIdPattern(data.id.value) {
      return Fail(InvalidData(IdFormatMessage + data.id.value, xmlContent));
    }
    var valid := IsValidRank(data.rango);
    if !valid {
      return Fail(InvalidData(RankMessage(data.rango), xmlContent));
    }
    return Pass;
  }

  /** validateBusinessRules, over the bean. */
  method ValidateBusinessRules(data: PoliciaData, xmlContent: string) returns (o: Outcome<Err>)
    ensures o == RulesVerdict(data.Value(), xmlContent)
  {
    var violations := ConstraintViolations(data.Value());
    if violations != [] {
      var msg := ViolationMessage(violations);
      return Fail(InvalidData(msg, xmlContent));
    }
    o := ValidateAdditionalBusinessRules(data, xmlContent);
  }

  // --------------------------------------------------------- classification

  /** What unmarshalling threw. */
  datatype Thrown =
    | JaxbError(message: string)                                // a JAXBException
    | ValidationEvent(line: int, column: int, message: string)  // the event handler's MalformedXmlException
    | Unexpected(message: string)                               // any other exception

  /** What JAXB unmarshalling produced: the bean's contents, or what it threw. */
  datatype Unmarshalled = Parsed(record: Record) | Threw(failure: Thrown)

  /** The message the validation event handler builds from the event's locator. */
  function EventMessage(line: int, column: int, message: string): (r: string)
    ensures StartsWith(r, "Error de validación XML en línea " + IntToString(line) + ", columna " + IntToString(column) + ": ")
    ensures |r| == |"Error de validación XML en línea " + IntToString(line) + ", columna " + IntToString(column) + ": "| + |message|
    ensures r[|r| - |message|..] == message
  {
    var head := "Error de validación XML en línea " + IntToString(line) + ", columna " + IntToString(column) + ": ";
    var r := head + message;
    assert r[..|head|] == head;
    assert r[|r| - |message|..] == message;
    r
  }

  /**
   * The catch clauses of validateAndParseXml applied to an unmarshalling
   * failure: a JAXBException becomes MalformedXml, the handler's
   * MalformedXml passes unchanged through the InvalidData clause, anything
   * else becomes InvalidData. Each carries the original content.
   */
  function ClassifyUnmarshalFailure(t: Thrown, xmlContent: string): (e: Err)
    ensures e.IsInvalidData() && e.payload == xmlContent
    ensures e.MalformedXml? <==> !t.Unexpected?
  {
    match t
    case JaxbError(m) => MalformedXml("Error al parsear XML: " + m, xmlContent)
    case ValidationEvent(line, column, m) => MalformedXml(EventMessage(line, column, m), xmlContent)
    case Unexpected(m) => InvalidData("Error inesperado durante validación XML: " + m, xmlContent)
  }

  /**
   * validateAndParseXml: the bean is returned only when unmarshalling
   * succeeded and every rule holds; every failure is a data error carrying
   * the original content.
   */
  method ValidateAndParseXml(xmlContent: string, unmarshal: string -> Unmarshalled)
    returns (r: Result<PoliciaData, Err>)
    ensures r.Failure? ==> r.error.IsInvalidData() && r.error.payload == xmlContent
    ensures r.Success? <==> unmarshal(xmlContent).Parsed? && SatisfiesRules(unmarshal(xmlContent).record)
    ensures r.Success? ==> fresh(r.value) && r.value.Value() == unmarshal(xmlContent).record
    ensures unmarshal(xmlContent).Threw? ==>
      r == Failure(ClassifyUnmarshalFailure(unmarshal(xmlContent).failure, xmlContent))
    ensures unmarshal(xmlContent).Parsed? && r.Failure? ==>
      r.error == RulesVerdict(unmarshal(xmlContent).record, xmlContent).error
  {
    match unmarshal(xmlContent)
    case Threw(t) =>
      r := Failure(ClassifyUnmarshalFailure(t, xmlContent));
    case Parsed(rec) =>
      var data := new PoliciaData(rec.id, rec.nombre, rec.rango, rec.unidad, rec.estado);
      var verdict := ValidateBusinessRules(data, xmlContent);
      match verdict
      case Fail(e) => r := Failure(e);
      case Pass => r := Success(data);
  }
}
