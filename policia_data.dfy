/** PoliciaData: the five-field record and its Bean Validation constraints. */
module Model {
  import opened Wrappers
  import opened JavaText

  /** The value held by a PoliciaData bean; None stands for a null field. */
  datatype Record = Record(
    id: Option<string>,
    nombre: Option<string>,
    rango: Option<string>,
    unidad: Option<string>,
    estado: Option<string>)

  /** The mutable bean that JAXB fills and the processor enriches in place. */
  class PoliciaData {
    var id: Option<string>
    var nombre: Option<string>
    var rango: Option<string>
    var unidad: Option<string>
    var estado: Option<string>

    /** The current contents of the bean. */
    function Value(): Record
      reads this
    {
      Record(id, nombre, rango, unidad, estado)
    }

    /** The no-argument constructor JAXB uses: every field null. */
    constructor Empty()
      ensures Value() == Record(None, None, None, None, None)
    {
      id, nombre, rango, unidad, estado := None, None, None, None, None;
    }

    /** The five-argument constructor stores each argument unchanged. */
    constructor (id: Option<string>, nombre: Option<string>, rango: Option<string>,
                 unidad: Option<string>, estado: Option<string>)
      ensures Value() == Record(id, nombre, rango, unidad, estado)
    {
      this.id, this.nombre, this.rango, this.unidad, this.estado := id, nombre, rango, unidad, estado;
    }

    method SetId(v: Option<string>)
      modifies this
      ensures Value() == old(Value()).(id := v)
    {
      id := v;
    }

    method SetNombre(v: Option<string>)
      modifies this
      ensures Value() == old(Value()).(nombre := v)
    {
      nombre := v;
    }

    method SetRango(v: Option<string>)
      modifies this
      ensures Value() == old(Value()).(rango := v)
    {
      rango := v;
    }

    method SetUnidad(v: Option<string>)
      modifies this
      ensures Value() == old(Value()).(unidad := v)
    {
      unidad := v;
    }

    method SetEstado(v: Option<string>)
      modifies this
      ensures Value() == old(Value()).(estado := v)
    {
      estado := v;
    }
  }

  /** @NotBlank: not null, and something other than whitespace once trimmed. */
  predicate NotBlank(v: Option<string>) {
    v.Some? && Trim(v.value) != []
  }

  /** @NotNull. */
  predicate NotNull(v: Option<string>) {
    v.Some?
  }

  /** @NotBlank holds exactly of the non-null strings holding a char above U+0020. */
  lemma NotBlankMeansVisibleChar(v: Option<string>)
    ensures NotBlank(v) <==> v.Some? && exists k :: 0 <= k < |v.value| && !IsWs(v.value[k])
  {
  }

  /** One failed constraint: the property path and the annotation's message. */
  datatype Violation = Violation(path: string, message: string)

  const IdViolation := Violation("id", "ID no puede estar vacío")
  const NombreViolation := Violation("nombre", "Nombre no puede estar vacío")
  const RangoViolation := Violation("rango", "Rango no puede ser nulo")

  /**
   * validator.validate(data): the violated constraints of the record, one per
   * annotated field (id and nombre @NotBlank, rango @NotNull; unidad and
   * estado carry none), in declaration order.
   */
  function ConstraintViolations(r: Record): (vs: seq<Violation>)
    ensures IdViolation in vs <==> !NotBlank(r.id)
    ensures NombreViolation in vs <==> !NotBlank(r.nombre)
    ensures RangoViolation in vs <==> !NotNull(r.rango)
    ensures forall v :: v in vs ==> v in [IdViolation, NombreViolation, RangoViolation]
    ensures forall i, j :: 0 <= i < j < |vs| ==> vs[i] != vs[j]
    ensures vs == [] <==> NotBlank(r.id) && NotBlank(r.nombre) && NotNull(r.rango)
  {
    (if NotBlank(r.id) then [] else [IdViolation])
    + (if NotBlank(r.nombre) then [] else [NombreViolation])
    + (if NotNull(r.rango) then [] else [RangoViolation])
  }

  /** An empty rango is not null, so it passes its constraint; only the rank rule rejects it. */
  lemma EmptyRangoPassesNotNull(r: Record)
    requires r.rango == Some("")
    ensures RangoViolation !in ConstraintViolations(r)
  {
  }

  /** The constraints never look at unidad or estado. */
  lemma UnidadAndEstadoUnconstrained(r: Record, unidad: Option<string>, estado: Option<string>)
    ensures ConstraintViolations(r.(unidad := unidad, estado := estado)) == ConstraintViolations(r)
  {
  }
}
