/**
 * The browser-side payment-amount gate (static/js/CRM/validarPago.js): a
 * payment may not exceed the outstanding debt by more than one cent and must
 * be positive.  Amounts are integer cents; the one-cent margin of the source
 * is the `+ 1` below.
 */
module PaymentCheck {
  import opened Wrappers

  /** The parsed amount input: a number of cents, or NaN for a non-numeric entry. */
  datatype Amount = Cents(cents: int) | NotANumber

  /** What the error area shows. */
  datatype Notice = NoNotice | ExceedsDebt(debt: int) | NotPositive

  /** The amount input (its parsed value and its `is-invalid` mark) and the error area. */
  datatype Inputs = Inputs(amount: Amount, invalid: bool, notice: Notice)

  /** The result returned to the submit handler, whether the default submission was stopped, and the page afterwards. */
  datatype Outcome = Outcome(submit: bool, prevented: bool, page: Option<Inputs>)

  /** The largest accepted amount: the debt plus the one-cent rounding margin. */
  function Ceiling(debt: int): int { debt + 1 }

  /**
   * `validarPagoLocal(event, expId, deudaMax)`; `page` is None when the amount
   * input or the error area is missing from the page.
   */
  function ValidarPagoLocal(page: Option<Inputs>, debt: int): (r: Outcome)
    ensures r.submit == !r.prevented
    ensures page.None? ==> r == Outcome(true, false, None)
    ensures page.Some? ==> r.page.Some? && r.page.value.amount == page.value.amount
  {
    if page.None? then Outcome(true, false, None)
    else
      var reset := page.value.(invalid := false, notice := NoNotice);
      match reset.amount
      case Cents(a) =>
        if a > Ceiling(debt) then
          Outcome(false, true, Some(reset.(invalid := true, notice := ExceedsDebt(debt))))
        else if a <= 0 then
          Outcome(false, true, Some(reset.(notice := NotPositive)))
        else
          Outcome(true, false, Some(reset))
      case NotANumber =>
        Outcome(true, false, Some(reset))
  }

  /** For a numeric amount the payment is sent iff 0 < amount <= debt + 1 cent. */
  lemma AcceptedIff(inputs: Inputs, debt: int)
    requires inputs.amount.Cents?
    ensures ValidarPagoLocal(Some(inputs), debt).submit
        <==> 0 < inputs.amount.cents <= debt + 1
  {
  }

  /** Exactly one cent over the debt still passes; two cents over do not. */
  lemma MarginBoundary(inputs: Inputs, debt: int)
    requires debt >= 0
    ensures ValidarPagoLocal(Some(inputs.(amount := Cents(debt + 1))), debt).submit
    ensures !ValidarPagoLocal(Some(inputs.(amount := Cents(debt + 2))), debt).submit
  {
  }

  /**
   * The page afterwards: an overpayment shows the debt and marks the input,
   * a non-positive amount shows its notice without a mark, and an accepted
   * amount leaves both cleared.  The overpayment check runs first, so with a
   * negative debt a non-positive amount above the ceiling gets the
   * overpayment notice.
   */
  lemma NoticeShown(inputs: Inputs, debt: int)
    ensures var r := ValidarPagoLocal(Some(inputs), debt);
      && r.page.Some?
      && (r.page.value.invalid <==> inputs.amount.Cents? && inputs.amount.cents > debt + 1)
      && (r.page.value.notice == ExceedsDebt(debt) <==> r.page.value.invalid)
      && (r.page.value.notice == NotPositive
          <==> inputs.amount.Cents? && inputs.amount.cents <= 0 && inputs.amount.cents <= debt + 1)
      && (r.submit <==> r.page.value.notice == NoNotice)
  {
  }

  /** A non-numeric entry passes both comparisons and is sent. */
  lemma NotANumberAccepted(inputs: Inputs, debt: int)
    requires inputs.amount.NotANumber?
    ensures ValidarPagoLocal(Some(inputs), debt).submit
  {
  }
}
