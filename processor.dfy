/**
 * PoliciaDataProcessor: validates and parses a message, enriches the bean in
 * place, and turns any failure into a data error.
 */
module Processor {
  import opened Wrappers
  import opened JavaText
  import opened Errors
  import opened Model
  import opened Validation

  /** The status given to a record whose status is null or blank. */
  const DefaultEstado := "ACTIVO"

  /**
   * The record after enrichPoliciaData: a non-null rank upper-cased, a null
   * or blank status set to DefaultEstado, every other field untouched.
   */
  function Enriched(r: Record): (e: Record)
    ensures e.id == r.id && e.nombre == r.nombre && e.unidad == r.unidad
    ensures e.rango.Some? <==> r.rango.Some?
    ensures e.rango.Some? ==> EqualsIgnoreCase(e.rango.value, r.rango.value)
    ensures e.rango.Some? ==> ToUpper(e.rango.value) == e.rango.value
    ensures NotBlank(e.estado)
    ensures NotBlank(r.estado) ==> e.estado == r.estado
    ensures !NotBlank(r.estado) ==> e.estado == Some(DefaultEstado)
  {
    var rango := if r.rango.Some? then ToUpperIdempotent(r.rango.value); Some(ToUpper(r.rango.value)) else None;
    var estado := if r.estado.None? || Trim(r.estado.value) == [] then Some(DefaultEstado) else r.estado;
    assert Trim(DefaultEstado) != [] by { assert !IsWs(DefaultEstado[0]); }
    r.(rango := rango, estado := estado)
  }

  /** Enriching twice gives the record enriching once gives. */
  lemma EnrichIdempotent(r: Record)
    ensures Enriched(Enriched(r)) == Enriched(r)
  {
    if r.rango.Some? {
      ToUpperIdempotent(r.rango.value);
    }
  }

  /** Enrichment keeps a valid record valid, makes its rank one of Ranks exactly, and its status non-blank. */
  lemma EnrichedRecordIsCanonical(r: Record)
    requires SatisfiesRules(r)
    ensures Enriched(r).rango.Some? && Enriched(r).rango.value in Ranks
    ensures NotBlank(Enriched(r).estado)
    ensures SatisfiesRules(Enriched(r))
  {
    AcceptedRankCanonical(r.rango);
    var e := Enriched(r);
    var i :| 0 <= i < |Ranks| && Ranks[i] == e.rango.value;
    RanksAreUpperCase(i);
    assert RankMatches(Ranks[i], e.rango);
  }

  /** enrichPoliciaData: updates the bean in place through its setters. */
  method EnrichPoliciaData(data: PoliciaData)
    modifies data
    ensures data.Value() == Enriched(old(data.Value()))
  {
    if data.rango.Some? {
      data.SetRango(Some(ToUpper(data.rango.value)));
    }
    if data.estado.None? || Trim(data.estado.value) == [] {
      data.SetEstado(Some(DefaultEstado));
    }
  }

  /**
   * The catch clauses of process: a data error passes unchanged, any other
   * becomes InvalidData carrying the message being processed.
   */
  function ProcessorWrap(e: Err, xmlMessage: string): (w: Err)
    ensures w.IsInvalidData()
    ensures e.IsInvalidData() ==> w == e
    ensures e.Other? ==> w == InvalidData("Error inesperado durante procesamiento", xmlMessage)
  {
    if e.IsInvalidData() then e
    else InvalidData("Error inesperado durante procesamiento", xmlMessage)
  }

  /**
   * process(xmlMessage): the enriched bean when the message unmarshals and
   * satisfies every rule; otherwise a data error.
   */
  method Process(xmlMessage: string, unmarshal: string -> Unmarshalled) returns (r: Result<PoliciaData, Err>)
    ensures r.Failure? ==> r.error.IsInvalidData() && r.error.payload == xmlMessage
    ensures r.Success? <==> unmarshal(xmlMessage).Parsed? && SatisfiesRules(unmarshal(xmlMessage).record)
    ensures unmarshal(xmlMessage).Threw? ==>
      r == Failure(ClassifyUnmarshalFailure(unmarshal(xmlMessage).failure, xmlMessage))
    ensures unmarshal(xmlMessage).Parsed? && r.Failure? ==>
      r.error == RulesVerdict(unmarshal(xmlMessage).record, xmlMessage).error
    ensures r.Success? ==> fresh(r.value) && r.value.Value() == Enriched(unmarshal(xmlMessage).record)
    ensures r.Success? ==> r.value.rango.Some? && r.value.rango.value in Ranks && NotBlank(r.value.estado)
  {
    var parsed := ValidateAndParseXml(xmlMessage, unmarshal);
    match parsed
    case Failure(e) =>
      r := Failure(ProcessorWrap(e, xmlMessage));
    case Success(data) =>
      EnrichPoliciaData(data);
      EnrichedRecordIsCanonical(unmarshal(xmlMessage).record);
      r := Success(data);
  }
}
