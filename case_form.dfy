/**
 * The case form (crm/forms.py): the cross-field rule that a purchase date may
 * not come after the default date, and the construction of the form's
 * widgets and product-type choices.
 */
module CaseForm {
  import opened Wrappers
  import opened Companies

  // ---------------------------------------------------------------- clean()

  /** The shared date rule: both dates known and the purchase strictly after the default. */
  predicate PurchaseAfterDefault(fechaCompra: Option<int>, fechaImpago: Option<int>)
  {
    fechaCompra.Some? && fechaImpago.Some? && fechaCompra.value > fechaImpago.value
  }

  /** A value in `cleaned_data`. */
  datatype FieldValue = DateValue(day: int) | NullValue | TextValue(text: string) | NumberValue(n: int)

  /** The form's state during validation: `cleaned_data` and the per-field error lists. */
  datatype FormState = FormState(cleaned: map<string, FieldValue>, errors: map<string, seq<string>>)

  const FechaCompra := "fecha_compra"
  const FechaImpago := "fecha_impago"
  const FechaError := "La fecha de impago no puede ser anterior a la fecha de compra."

  /** `cleaned_data.get(key)` for a date field: None when the key is missing or holds None. */
  function GetDate(cleaned: map<string, FieldValue>, key: string): (r: Option<int>)
    ensures r.Some? <==> key in cleaned && cleaned[key].DateValue?
    ensures r.Some? ==> cleaned[key] == DateValue(r.value)
  {
    if key in cleaned && cleaned[key].DateValue? then Some(cleaned[key].day) else None
  }

  /**
   * Django's `Form.add_error(field, message)`: the message is appended to the
   * field's errors and the field leaves `cleaned_data`.
   */
  function AddError(form: FormState, field: string, message: string): (r: FormState)
    ensures r.cleaned == form.cleaned - {field}
    ensures field in r.errors && r.errors[field] == (if field in form.errors then form.errors[field] else []) + [message]
    ensures forall f :: f != field ==> (f in r.errors <==> f in form.errors)
    ensures forall f :: f != field && f in form.errors ==> r.errors[f] == form.errors[f]
  {
    var previous := if field in form.errors then form.errors[field] else [];
    FormState(form.cleaned - {field}, form.errors[field := previous + [message]])
  }

  /** `ExpedienteForm.clean`: the form state afterwards; `clean` returns its `cleaned_data`. */
  function Clean(form: FormState): (r: FormState)
    ensures forall f :: f in r.cleaned ==> f in form.cleaned && r.cleaned[f] == form.cleaned[f]
    ensures forall f :: f != FechaImpago ==> (f in r.errors <==> f in form.errors)
    ensures forall f :: f != FechaImpago && f in form.errors ==> r.errors[f] == form.errors[f]
  {
    var compra := GetDate(form.cleaned, FechaCompra);
    var impago := GetDate(form.cleaned, FechaImpago);
    if compra.Some? && impago.Some? && compra.value > impago.value then
      AddError(form, FechaImpago, FechaError)
    else form
  }

  /**
   * An error is added exactly when both dates are present and the purchase is
   * strictly later; it goes to `fecha_impago` only, which then leaves
   * `cleaned_data`; otherwise nothing changes.
   */
  lemma CleanDateRule(form: FormState)
    ensures var compra := GetDate(form.cleaned, FechaCompra);
      var impago := GetDate(form.cleaned, FechaImpago);
      var r := Clean(form);
      && (PurchaseAfterDefault(compra, impago) ==>
            && r.errors == form.errors[FechaImpago := (if FechaImpago in form.errors then form.errors[FechaImpago] else []) + [FechaError]]
            && r.cleaned == form.cleaned - {FechaImpago})
      && (!PurchaseAfterDefault(compra, impago) ==> r == form)
  {
  }

  /** Same-day dates and a missing date are accepted. */
  lemma CleanAccepts(form: FormState)
    requires GetDate(form.cleaned, FechaCompra).None?
          || GetDate(form.cleaned, FechaImpago).None?
          || GetDate(form.cleaned, FechaCompra) == GetDate(form.cleaned, FechaImpago)
    ensures Clean(form) == form
  {
  }

  // ---------------------------------------------------------------- __init__()

  /** `Meta.fields`, in declaration order. */
  const FormFields: seq<string> := [
    "agente", "tipo_producto", "deudor_nombre", "deudor_telefono", "deudor_dni",
    "deudor_email", "monto_original", "cuotas_totales", "fecha_compra", "fecha_impago"]

  /** A product-type choice: stored value and displayed text. */
  datatype Choice = Choice(value: Option<string>, display: Option<string>)

  /** The `tipo_producto` column of the scheme rows, as stored codes. */
  function ProductCode(t: Option<OpcionImpago>): Option<string>
  {
    match t
    case None => None
    case Some(o) => Some(OpcionCode(o))
  }

  predicate NoDuplicates<T(==)>(s: seq<T>)
  {
    forall i, j :: 0 <= i < j < |s| ==> s[i] != s[j]
  }

  /** `.distinct()`: each value once, first occurrences kept in order. */
  function Distinct<T(==)>(s: seq<T>): (r: seq<T>)
    ensures forall i :: 0 <= i < |r| ==> r[i] in s
    ensures forall i :: 0 <= i < |s| ==> s[i] in r
    ensures NoDuplicates(r)
  {
    if s == [] then []
    else
      var d := Distinct(s[..|s| - 1]);
      var last := s[|s| - 1];
      assert s == s[..|s| - 1] + [last];
      if last in d then d else d + [last]
  }

  /** The product types of the company's schemes, `(tipo, tipo)` for each, duplicates removed. */
  function TipoProductoChoices(esquemas: seq<EsquemaComision>, empresaId: int): (choices: seq<Choice>)
    ensures NoDuplicates(choices)
    ensures forall c :: c in choices ==> c.value == c.display
    ensures forall t :: (Choice(t, t) in choices
        <==> exists e :: e in esquemas && e.empresaId == empresaId && ProductCode(e.tipoProducto) == t)
  {

    var codes := CompanyCodes(esquemas, empresaId);
    var distinct := Distinct(codes);
    assert forall t :: t in distinct <==> t in codes by {
      forall t ensures t in distinct <==> t in codes {
        if t in codes {
          var j :| 0 <= j < |codes| && codes[j] == t;
        }
        if t in distinct {
          var j :| 0 <= j < |distinct| && distinct[j] == t;
        }
      }
    }
    var choices := seq(|distinct|, i requires 0 <= i < |distinct| => Choice(distinct[i], distinct[i]));
    assert forall t :: Choice(t, t) in choices <==> t in distinct by {
      forall t ensures Choice(t, t) in choices <==> t in distinct {
        if t in distinct {
          var i :| 0 <= i < |distinct| && distinct[i] == t;
          assert choices[i] == Choice(t, t);
        }
      }
    }
    choices
  }

  /** The stored product codes of the company's scheme rows, in table order. */
  function CompanyCodes(esquemas: seq<EsquemaComision>, empresaId: int): (codes: seq<Option<string>>)
    ensures forall t :: (t in codes
        <==> exists e :: e in esquemas && e.empresaId == empresaId && ProductCode(e.tipoProducto) == t)
  {
    if esquemas == [] then []
    else
      var rest := CompanyCodes(esquemas[1..], empresaId);
      var e := esquemas[0];
      assert forall x :: x in esquemas <==> x == e || x in esquemas[1..];
      if e.empresaId == empresaId then [ProductCode(e.tipoProducto)] + rest else rest
  }

  /** A form field: its widget's CSS class and, for a choice field, its choices. */
  datatype Field = Field(widgetClass: Option<string>, choices: Option<seq<Choice>>)

  /** The fields as `Meta` declares them: only `agente` has a class (form-select). */
  function MetaFields(): (fields: map<string, Field>)
    ensures forall f :: f in fields <==> f in FormFields
    ensures forall f :: f in fields ==> fields[f].choices == None
  {
    map f | f in FormFields :: if f == "agente" then Field(Some("form-select"), None) else Field(None, None)
  }

  /** The `for` loop over the form's fields: each named widget gets class form-control. */
  method StyleWidgets(fs0: map<string, Field>, names: seq<string>) returns (fs: map<string, Field>)
    requires forall n :: n in names ==> n in fs0
    ensures fs.Keys == fs0.Keys
    ensures forall n :: n in names ==> fs[n] == fs0[n].(widgetClass := Some("form-control"))
    ensures forall f :: f in fs && f !in names ==> fs[f] == fs0[f]
  {
    fs := fs0;
    var i := 0;
    while i < |names|
      invariant 0 <= i <= |names|
      invariant fs.Keys == fs0.Keys
      invariant forall k :: 0 <= k < i ==> fs[names[k]] == fs0[names[k]].(widgetClass := Some("form-control"))
      invariant forall f :: f in fs && f !in names[..i] ==> fs[f] == fs0[f]
    {
      var name := names[i];
      fs := fs[name := fs0[name].(widgetClass := Some("form-control"))];
      assert names[..i + 1] == names[..i] + [name];
      i := i + 1;
    }
    assert names[..i] == names;
  }

  /** `ExpedienteForm` after construction. */
  class ExpedienteForm {
    var fields: map<string, Field>

    /**
     * `__init__`: every declared field's widget gets class form-control (which
     * replaces agente's form-select); with a company, `tipo_producto` becomes a
     * choice field over that company's scheme product types, class form-select.
     */
    constructor (empresa: Option<int>, esquemas: seq<EsquemaComision>)
      ensures forall f :: f in fields <==> f in FormFields
      ensures forall f :: f in fields && (empresa.None? || f != "tipo_producto") ==>
        fields[f] == Field(Some("form-control"), None)
      ensures empresa.Some? ==>
        fields["tipo_producto"] == Field(Some("form-select"), Some(TipoProductoChoices(esquemas, empresa.value)))
    {
      var fs := StyleWidgets(MetaFields(), FormFields);
      if empresa.Some? {
        fs := fs["tipo_producto" := Field(Some("form-select"), Some(TipoProductoChoices(esquemas, empresa.value)))];
      }
      fields := fs;
    }
  }
}
