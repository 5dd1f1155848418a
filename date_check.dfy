/**
 * The browser-side date check (static/js/CRM/validarFechas.js): before a case
 * form is sent, a purchase date later than the default date blocks the
 * submission and marks the default-date input invalid.
 */
module DateCheck {
  import opened Wrappers
  import opened CaseForm

  /**
   * The value of an `<input type="date">`: empty, or a valid `yyyy-mm-dd`
   * (the browser sanitises anything else to empty), read as a day ordinal.
   */
  datatype DateValue = Blank | Day(ordinal: int)

  /** A date input of the form: its value and whether it carries the `is-invalid` class. */
  datatype DateInput = DateInput(value: DateValue, invalid: bool)

  /** What the check returns, and the default-date input afterwards. */
  datatype Outcome = Outcome(submit: bool, impago: Option<DateInput>)

  /** `validarFechasExpediente(form)`, with the form's two inputs (None when the form has no such input). */
  function ValidarFechasExpediente(compra: Option<DateInput>, impago: Option<DateInput>): (r: Outcome)
    ensures r.impago.Some? <==> impago.Some?
    ensures r.impago.Some? ==> r.impago.value.value == impago.value.value
  {
    if compra.Some? && impago.Some?
       && compra.value.value.Day? && impago.value.value.Day?
       && compra.value.value.ordinal > impago.value.value.ordinal
    then Outcome(false, Some(impago.value.(invalid := true)))
    else Outcome(true, if impago.Some? then Some(impago.value.(invalid := false)) else None)
  }

  /** The date the server reads for an input: nothing for a missing or empty one. */
  function Submitted(input: Option<DateInput>): Option<int>
  {
    if input.Some? && input.value.value.Day? then Some(input.value.value.ordinal) else None
  }

  /**
   * Blocked exactly when both inputs exist and are filled in and the purchase
   * is strictly later; the default-date input is marked invalid on a block
   * and unmarked otherwise.
   */
  lemma ValidarFechasRule(compra: Option<DateInput>, impago: Option<DateInput>)
    ensures var r := ValidarFechasExpediente(compra, impago);
      && (!r.submit <==> compra.Some? && impago.Some? && compra.value.value.Day? && impago.value.value.Day?
                         && compra.value.value.ordinal > impago.value.value.ordinal)
      && (r.impago.Some? ==> r.impago.value.invalid == !r.submit)
  {
  }

  /** Same-day dates pass, and so does a form with an empty or missing input. */
  lemma ValidarFechasAccepts(compra: Option<DateInput>, impago: Option<DateInput>)
    requires Submitted(compra).None? || Submitted(impago).None? || Submitted(compra) == Submitted(impago)
    ensures ValidarFechasExpediente(compra, impago).submit
  {
  }

  /**
   * The browser blocks exactly the submissions the server-side `clean` would
   * reject: the two implement one date rule.
   */
  lemma BrowserMatchesServer(compra: Option<DateInput>, impago: Option<DateInput>)
    ensures !ValidarFechasExpediente(compra, impago).submit
        <==> PurchaseAfterDefault(Submitted(compra), Submitted(impago))
  {
  }

  /** The same agreement, stated on the server's form state built from the submitted dates. */
  lemma BrowserMatchesClean(compra: Option<DateInput>, impago: Option<DateInput>, form: FormState)
    requires GetDate(form.cleaned, FechaCompra) == Submitted(compra)
    requires GetDate(form.cleaned, FechaImpago) == Submitted(impago)
    ensures ValidarFechasExpediente(compra, impago).submit <==> Clean(form) == form
  {
    CleanDateRule(form);
    if PurchaseAfterDefault(Submitted(compra), Submitted(impago)) {
      assert FechaImpago in Clean(form).errors;
      assert FechaImpago in form.cleaned && FechaImpago !in Clean(form).cleaned;
    }
  }
}
