/**
 * The entry form: four text fields, a calculator that fills one amount from the other at the
 * current price, and the submit decision that turns the text into an `Entry` or refuses it.
 */
module Form {
  import opened Wrappers
  import opened JsNumbers
  import opened Ledger

  /** The form's fields as the user typed them. */
  datatype FormData = FormData(date: string, btcAmount: string, idrAmount: string, notes: string)

  /** `'idr'` fills the BTC field from the IDR field; `'btc'` fills the IDR field from the BTC field. */
  datatype CalculationMode = IdrMode | BtcMode

  function Toggled(mode: CalculationMode): (r: CalculationMode)
    ensures r != mode
  {
    if mode == IdrMode then BtcMode else IdrMode
  }

  lemma ToggleTwice(mode: CalculationMode)
    ensures Toggled(Toggled(mode)) == mode
  {
  }

  /** Why a submission was refused, in the order the checks run. */
  datatype Rejection = InvalidAmount | ExceedsCapital

  /** The alert shown for a refusal. */
  function Message(r: Rejection): string
  {
    match r
    case InvalidAmount => "Mohon masukkan jumlah yang valid"
    case ExceedsCapital => "Jumlah IDR melebihi modal yang tersisa"
  }

  /** The two refusals are told apart by their alerts. */
  lemma MessagesDistinct()
    ensures Message(InvalidAmount) != Message(ExceedsCapital)
  {
  }

  /** The text parses as a number greater than zero. */
  predicate PositiveAmount(text: string)
  {
    var v := ParseFloat(text);
    v.Some? && v.value > 0.0
  }

  /**
   * The submit decision: both amounts must parse as positive numbers, then the IDR amount must
   * not exceed the remaining capital; an accepted form yields the parsed amounts with the date
   * and notes as typed.
   */
  function Submit(form: FormData, remainingCapital: real): (r: Result<Entry, Rejection>)
    ensures r == Failure(InvalidAmount) <==> !PositiveAmount(form.btcAmount) || !PositiveAmount(form.idrAmount)
    ensures r == Failure(ExceedsCapital)
        <==> PositiveAmount(form.btcAmount) && PositiveAmount(form.idrAmount)
             && ParseFloat(form.idrAmount).value > remainingCapital
    ensures r.Success? ==>
      && ParseFloat(form.btcAmount) == Some(r.value.btcAmount)
      && ParseFloat(form.idrAmount) == Some(r.value.idrAmount)
      && 0.0 < r.value.idrAmount <= remainingCapital
      && 0.0 < r.value.btcAmount
      && r.value.date == form.date
      && r.value.notes == Some(form.notes)
  {
    var btcAmount := ParseFloat(form.btcAmount);
    var idrAmount := ParseFloat(form.idrAmount);
    if btcAmount.None? || idrAmount.None? || btcAmount.value <= 0.0 || idrAmount.value <= 0.0 then
      Failure(InvalidAmount)
    else if idrAmount.value > remainingCapital then
      Failure(ExceedsCapital)
    else
      Success(Entry(form.date, btcAmount.value, idrAmount.value, Some(form.notes)))
  }

  /** The amount check comes first: a malformed amount is refused as such whatever the capital. */
  lemma InvalidAmountIgnoresCapital(form: FormData, capital1: real, capital2: real)
    requires !PositiveAmount(form.btcAmount) || !PositiveAmount(form.idrAmount)
    ensures Submit(form, capital1) == Submit(form, capital2) == Failure(InvalidAmount)
  {
  }

  /** Spending exactly the remaining capital is accepted. */
  lemma SpendingAllCapitalAccepted(form: FormData, remainingCapital: real)
    requires PositiveAmount(form.btcAmount)
    requires ParseFloat(form.idrAmount) == Some(remainingCapital) && remainingCapital > 0.0
    ensures Submit(form, remainingCapital).Success?
    ensures Submit(form, remainingCapital).value.idrAmount == remainingCapital
  {
  }

  /** Raising the remaining capital never turns an accepted form into a refused one. */
  lemma AcceptanceMonotone(form: FormData, capital1: real, capital2: real)
    requires capital1 <= capital2
    requires Submit(form, capital1).Success?
    ensures Submit(form, capital2) == Submit(form, capital1)
  {
  }

  // ---------------------------------------------------------------------------
  // The calculator

  /** The BTC text the calculator writes for an IDR text: `(parseFloat(idr) / price).toFixed(8)`. */
  function BtcFromIdr(idrText: string, currentPrice: real): string
    requires currentPrice != 0.0
  {
    var idr := ParseFloat(idrText);
    if idr.Some? then ToFixed(idr.value / currentPrice, 8) else "NaN"
  }

  /** The IDR text the calculator writes for a BTC text: `(parseFloat(btc) * price).toString()`. */
  function IdrFromBtc(btcText: string, currentPrice: real): string
  {
    var btc := ParseFloat(btcText);
    if btc.Some? then NumberToString(btc.value * currentPrice) else "NaN"
  }

  /**
   * `handleCalculation`: with a non-empty source field and a non-zero price, the other amount
   * is overwritten; an unparsable source gives the text `NaN`.
   */
  function Calculate(form: FormData, mode: CalculationMode, currentPrice: real): (r: FormData)
    ensures r.date == form.date && r.notes == form.notes
    ensures mode == IdrMode ==> r.idrAmount == form.idrAmount
    ensures mode == BtcMode ==> r.btcAmount == form.btcAmount
    ensures currentPrice == 0.0 ==> r == form
    ensures mode == IdrMode && form.idrAmount == "" ==> r == form
    ensures mode == BtcMode && form.btcAmount == "" ==> r == form
  {
    if mode == IdrMode && form.idrAmount != "" && currentPrice != 0.0 then
      form.(btcAmount := BtcFromIdr(form.idrAmount, currentPrice))
    else if mode == BtcMode && form.btcAmount != "" && currentPrice != 0.0 then
      form.(idrAmount := IdrFromBtc(form.btcAmount, currentPrice))
    else
      form
  }

  /** `NaN` is not a number to parseFloat. */
  lemma NaNTextRejected()
    ensures ParseFloat("NaN") == None
  {
    assert TrimStart("NaN") == "NaN";
    assert LeadingDigits("NaN") == [];
    assert LeadingDigits("aN") == [];
  }

  /**
   * In IDR mode the BTC field reads back as the IDR amount over the price, rounded to a satoshi
   * and so within half a satoshi of the exact quotient.
   */
  lemma CalculatedBtc(form: FormData, currentPrice: real, idr: real)
    requires form.idrAmount != "" && currentPrice != 0.0
    requires ParseFloat(form.idrAmount) == Some(idr)
    ensures ParseFloat(Calculate(form, IdrMode, currentPrice).btcAmount) == Some(Rounded(idr / currentPrice, 8))
    ensures -0.000000005 <= Rounded(idr / currentPrice, 8) - idr / currentPrice <= 0.000000005
  {
    assert Calculate(form, IdrMode, currentPrice).btcAmount == BtcFromIdr(form.idrAmount, currentPrice);
    assert BtcFromIdr(form.idrAmount, currentPrice) == ToFixed(idr / currentPrice, 8);
    ToFixedReadBack(idr / currentPrice, 8);
    SatoshiRounding(idr / currentPrice);
  }

  /** In BTC mode the IDR field reads back exactly as the typed BTC amount times the price. */
  lemma CalculatedIdr(form: FormData, currentPrice: real)
    requires form.btcAmount != "" && currentPrice != 0.0
    requires ParseFloat(form.btcAmount).Some?
    requires HasDecimals(ParseFloat(form.btcAmount).value * currentPrice, MaxFractionDigits)
    ensures ParseFloat(Calculate(form, BtcMode, currentPrice).idrAmount)
         == Some(ParseFloat(form.btcAmount).value * currentPrice)
  {
    NumberToStringReadBack(ParseFloat(form.btcAmount).value * currentPrice);
  }

  /** An unparsable source field puts `NaN` in the other field, which submission then refuses. */
  lemma CalculatedFromGarbage(form: FormData, mode: CalculationMode, currentPrice: real, remainingCapital: real)
    requires currentPrice != 0.0
    requires mode == IdrMode ==> form.idrAmount != "" && ParseFloat(form.idrAmount) == None
    requires mode == BtcMode ==> form.btcAmount != "" && ParseFloat(form.btcAmount) == None
    ensures Submit(Calculate(form, mode, currentPrice), remainingCapital) == Failure(InvalidAmount)
  {
    NaNTextRejected();
  }

  /** Pressing the calculator twice is the same as pressing it once. */
  lemma CalculateIdempotent(form: FormData, mode: CalculationMode, currentPrice: real)
    ensures Calculate(Calculate(form, mode, currentPrice), mode, currentPrice) == Calculate(form, mode, currentPrice)
  {
  }

  /**
   * Filling the BTC field with the calculator and submitting records the typed IDR amount and
   * the rounded quotient as the BTC amount.
   */
  lemma CalculateThenSubmit(form: FormData, currentPrice: real, idr: real, remainingCapital: real)
    requires currentPrice > 0.0 && form.idrAmount != ""
    requires ParseFloat(form.idrAmount) == Some(idr)
    requires 0.0 < idr <= remainingCapital
    requires Rounded(idr / currentPrice, 8) > 0.0
    ensures Submit(Calculate(form, IdrMode, currentPrice), remainingCapital)
         == Success(Entry(form.date, Rounded(idr / currentPrice, 8), idr, Some(form.notes)))
  {
    CalculatedBtc(form, currentPrice, idr);
  }

  /** The form's state: the four fields and the calculation mode. */
  class EntryForm {
    var formData: FormData
    var calculationMode: CalculationMode

    /** A fresh form dated `today`, with empty amounts and notes, converting IDR to BTC. */
    constructor(today: string)
      ensures formData == FormData(today, "", "", "")
      ensures calculationMode == IdrMode
    {
      formData := FormData(today, "", "", "");
      calculationMode := IdrMode;
    }

    method ToggleMode()
      modifies this
      ensures calculationMode == Toggled(old(calculationMode))
      ensures formData == old(formData)
    {
      calculationMode := if calculationMode == IdrMode then BtcMode else IdrMode;
    }

    method HandleCalculation(currentPrice: real)
      modifies this
      ensures formData == Calculate(old(formData), calculationMode, currentPrice)
      ensures calculationMode == old(calculationMode)
    {
      formData := Calculate(formData, calculationMode, currentPrice);
    }

    method SetDate(date: string)
      modifies this
      ensures formData == old(formData).(date := date)
      ensures calculationMode == old(calculationMode)
    {
      formData := formData.(date := date);
    }

    method SetIdrAmount(text: string)
      modifies this
      ensures formData == old(formData).(idrAmount := text)
      ensures calculationMode == old(calculationMode)
    {
      formData := formData.(idrAmount := text);
    }

    method SetBtcAmount(text: string)
      modifies this
      ensures formData == old(formData).(btcAmount := text)
      ensures calculationMode == old(calculationMode)
    {
      formData := formData.(btcAmount := text);
    }

    method SetNotes(text: string)
      modifies this
      ensures formData == old(formData).(notes := text)
      ensures calculationMode == old(calculationMode)
    {
      formData := formData.(notes := text);
    }

    /** Pressing save: the decision on the current fields; the form itself is left as it is. */
    method HandleSubmit(remainingCapital: real) returns (outcome: Result<Entry, Rejection>, shown: Option<string>)
      ensures outcome == Submit(formData, remainingCapital)
      ensures shown.Some? <==> outcome.Failure?
      ensures outcome.Failure? ==> shown == Some(Message(outcome.error))
    {
      outcome := Submit(formData, remainingCapital);
      shown := if outcome.Failure? then Some(Message(outcome.error)) else None;
    }
  }
}
