/**
 * The alerts panel: a low-capital warning and a price-target notification, each a predicate of
 * the current price, the capital figures and five user settings.
 */
module Alerts {
  import opened Wrappers
  import opened JsNumbers

  /** Whether the price alert waits for the price to rise to the target or to fall to it. */
  datatype AlertDirection = Above | Below

  /** The five settings, as one value. */
  datatype AlertSettings = AlertSettings(
    lowCapitalAlert: bool,
    lowCapitalThreshold: real,
    priceAlerts: bool,
    targetPrice: real,
    alertDirection: AlertDirection)

  /** Both alerts on, a 20% threshold, no target price yet, waiting for a rise. */
  const DefaultSettings := AlertSettings(true, 20.0, true, 0.0, Above)

  /** A saved settings object, any of whose fields may be missing. */
  datatype SavedSettings = SavedSettings(
    lowCapitalAlert: Option<bool>,
    lowCapitalThreshold: Option<real>,
    priceAlerts: Option<bool>,
    targetPrice: Option<real>,
    alertDirection: Option<AlertDirection>)

  /** `value ?? fallback`: only a missing value is replaced. */
  function OrElse<T>(value: Option<T>, fallback: T): (r: T)
    ensures value.Some? ==> r == value.value
    ensures value.None? ==> r == fallback
  {
    match value
    case Some(v) => v
    case None => fallback
  }

  /** The settings a saved object restores: each missing field takes its default. */
  function Restore(saved: SavedSettings): (s: AlertSettings)
    ensures saved.lowCapitalAlert.Some? ==> s.lowCapitalAlert == saved.lowCapitalAlert.value
    ensures saved.lowCapitalAlert.None? ==> s.lowCapitalAlert == DefaultSettings.lowCapitalAlert
    ensures saved.lowCapitalThreshold.Some? ==> s.lowCapitalThreshold == saved.lowCapitalThreshold.value
    ensures saved.lowCapitalThreshold.None? ==> s.lowCapitalThreshold == DefaultSettings.lowCapitalThreshold
    ensures saved.priceAlerts.Some? ==> s.priceAlerts == saved.priceAlerts.value
    ensures saved.priceAlerts.None? ==> s.priceAlerts == DefaultSettings.priceAlerts
    ensures saved.targetPrice.Some? ==> s.targetPrice == saved.targetPrice.value
    ensures saved.targetPrice.None? ==> s.targetPrice == DefaultSettings.targetPrice
    ensures saved.alertDirection.Some? ==> s.alertDirection == saved.alertDirection.value
    ensures saved.alertDirection.None? ==> s.alertDirection == DefaultSettings.alertDirection
  {
    AlertSettings(
      OrElse(saved.lowCapitalAlert, DefaultSettings.lowCapitalAlert),
      OrElse(saved.lowCapitalThreshold, DefaultSettings.lowCapitalThreshold),
      OrElse(saved.priceAlerts, DefaultSettings.priceAlerts),
      OrElse(saved.targetPrice, DefaultSettings.targetPrice),
      OrElse(saved.alertDirection, DefaultSettings.alertDirection))
  }

  /** The object the save button writes: every setting present. */
  function Saved(s: AlertSettings): SavedSettings
  {
    SavedSettings(Some(s.lowCapitalAlert), Some(s.lowCapitalThreshold), Some(s.priceAlerts),
                  Some(s.targetPrice), Some(s.alertDirection))
  }

  /** Restoring what was saved gives back the same settings, switched-off alerts and a 0 target included. */
  lemma RestoreSaved(s: AlertSettings)
    ensures Restore(Saved(s)) == s
  {
  }

  /** An empty saved object restores the defaults. */
  lemma RestoreNothing()
    ensures Restore(SavedSettings(None, None, None, None, None)) == DefaultSettings
  {
  }

  // ---------------------------------------------------------------------------
  // The two alerts

  /** `(remainingCapital / totalCapital) * 100`, NaN or an infinity when the total is 0. */
  function CapitalPercentage(remainingCapital: real, totalCapital: real): (p: Num)
    ensures p.Finite? <==> totalCapital != 0.0
    ensures p.Finite? ==> p.value * totalCapital == remainingCapital * 100.0
    ensures totalCapital == 0.0 ==> (p == NegInfinity <==> remainingCapital < 0.0)
  {
    Scale(Div(remainingCapital, totalCapital), 100.0)
  }

  /** The low-capital warning: on, and the capital percentage at or below the threshold. */
  predicate IsLowCapital(s: AlertSettings, remainingCapital: real, totalCapital: real)
  {
    s.lowCapitalAlert && AtMost(CapitalPercentage(remainingCapital, totalCapital), s.lowCapitalThreshold)
  }

  /** The price notification: on, a positive target, and the price on the chosen side of it. */
  predicate IsPriceAlertTriggered(s: AlertSettings, currentPrice: real)
  {
    && s.priceAlerts
    && s.targetPrice > 0.0
    && ((s.alertDirection == Above && currentPrice >= s.targetPrice)
        || (s.alertDirection == Below && currentPrice <= s.targetPrice))
  }

  /** Switched off, the low-capital warning never shows. */
  lemma LowCapitalOff(s: AlertSettings, remainingCapital: real, totalCapital: real)
    requires !s.lowCapitalAlert
    ensures !IsLowCapital(s, remainingCapital, totalCapital)
  {
  }

  /** With capital set, the warning shows exactly when the percentage left is at most the threshold. */
  lemma LowCapitalWithCapital(s: AlertSettings, remainingCapital: real, totalCapital: real)
    requires totalCapital > 0.0
    ensures IsLowCapital(s, remainingCapital, totalCapital)
        <==> s.lowCapitalAlert && remainingCapital / totalCapital * 100.0 <= s.lowCapitalThreshold
    ensures IsLowCapital(s, remainingCapital, totalCapital)
        <==> s.lowCapitalAlert && remainingCapital * 100.0 <= s.lowCapitalThreshold * totalCapital
  {
    var q := remainingCapital / totalCapital;
    assert q * totalCapital == remainingCapital;
    assert q * 100.0 <= s.lowCapitalThreshold
       <==> q * 100.0 * totalCapital <= s.lowCapitalThreshold * totalCapital;
    assert q * 100.0 * totalCapital == remainingCapital * 100.0;
  }

  /**
   * With a total capital of 0 the percentage is NaN or an infinity: the warning shows exactly
   * when the remaining capital is negative (the percentage is then minus infinity).
   */
  lemma LowCapitalWithoutCapital(s: AlertSettings, remainingCapital: real)
    ensures IsLowCapital(s, remainingCapital, 0.0) <==> s.lowCapitalAlert && remainingCapital < 0.0
  {
  }

  /** Switched off or without a positive target, the price notification never shows. */
  lemma PriceAlertOff(s: AlertSettings, currentPrice: real)
    requires !s.priceAlerts || s.targetPrice <= 0.0
    ensures !IsPriceAlertTriggered(s, currentPrice)
  {
  }

  /**
   * Waiting for a rise, the notification shows from the target upwards; waiting for a fall, from
   * the target downwards. Exactly at the target it shows in both directions.
   */
  lemma PriceAlertSides(s: AlertSettings, currentPrice: real)
    requires s.priceAlerts && s.targetPrice > 0.0
    ensures s.alertDirection == Above ==> (IsPriceAlertTriggered(s, currentPrice) <==> currentPrice >= s.targetPrice)
    ensures s.alertDirection == Below ==> (IsPriceAlertTriggered(s, currentPrice) <==> currentPrice <= s.targetPrice)
    ensures currentPrice == s.targetPrice ==> IsPriceAlertTriggered(s, currentPrice)
  {
  }

  /** The warning text: the capital percentage with one decimal. */
  function LowCapitalMessage(remainingCapital: real, totalCapital: real): string
  {
    "Modal tersisa rendah: " + FormatFixed(CapitalPercentage(remainingCapital, totalCapital), 1) + "% dari total modal"
  }

  /**
   * When the percentage left is a finite number (the capital is set), the figure in the warning
   * is that percentage written with one decimal, which reads back as it rounded to a tenth.
   */
  lemma LowCapitalMessageFigure(remainingCapital: real, totalCapital: real)
    requires CapitalPercentage(remainingCapital, totalCapital).Finite?
    ensures totalCapital != 0.0
    ensures var p := CapitalPercentage(remainingCapital, totalCapital).value;
      && LowCapitalMessage(remainingCapital, totalCapital) == "Modal tersisa rendah: " + ToFixed(p, 1) + "% dari total modal"
      && ParseFloat(ToFixed(p, 1)) == Some(Rounded(p, 1))
  {
    ToFixedReadBack(CapitalPercentage(remainingCapital, totalCapital).value, 1);
  }

  /**
   * The panel's state: the five settings the user edits. The alerts are evaluated afresh from
   * the state and the current figures; nothing records that an alert has been shown.
   */
  class AlertsPanel {
    var lowCapitalAlert: bool
    var lowCapitalThreshold: real
    var priceAlerts: bool
    var targetPrice: real
    var alertDirection: AlertDirection

    function Settings(): AlertSettings
      reads this
    {
      AlertSettings(lowCapitalAlert, lowCapitalThreshold, priceAlerts, targetPrice, alertDirection)
    }

    constructor()
      ensures Settings() == DefaultSettings
    {
      lowCapitalAlert := true;
      lowCapitalThreshold := 20.0;
      priceAlerts := true;
      targetPrice := 0.0;
      alertDirection := Above;
    }

    /** Loading a saved object replaces every setting, missing fields by their defaults. */
    method Load(saved: SavedSettings)
      modifies this
      ensures Settings() == Restore(saved)
    {
      lowCapitalAlert := OrElse(saved.lowCapitalAlert, true);
      lowCapitalThreshold := OrElse(saved.lowCapitalThreshold, 20.0);
      priceAlerts := OrElse(saved.priceAlerts, true);
      targetPrice := OrElse(saved.targetPrice, 0.0);
      alertDirection := OrElse(saved.alertDirection, Above);
    }

    method SetLowCapitalAlert(on: bool)
      modifies this
      ensures Settings() == old(Settings()).(lowCapitalAlert := on)
    {
      lowCapitalAlert := on;
    }

    method SetLowCapitalThreshold(threshold: real)
      modifies this
      ensures Settings() == old(Settings()).(lowCapitalThreshold := threshold)
    {
      lowCapitalThreshold := threshold;
    }

    method SetPriceAlerts(on: bool)
      modifies this
      ensures Settings() == old(Settings()).(priceAlerts := on)
    {
      priceAlerts := on;
    }

    method SetTargetPrice(target: real)
      modifies this
      ensures Settings() == old(Settings()).(targetPrice := target)
    {
      targetPrice := target;
    }

    method SetAlertDirection(direction: AlertDirection)
      modifies this
      ensures Settings() == old(Settings()).(alertDirection := direction)
    {
      alertDirection := direction;
    }

    /**
     * One render's evaluation of both alerts. It changes nothing, so evaluating again with the
     * same figures gives the same answer: the alerts are level-triggered.
     */
    method Evaluate(currentPrice: real, remainingCapital: real, totalCapital: real)
      returns (lowCapital: bool, priceAlert: bool)
      ensures lowCapital <==> IsLowCapital(Settings(), remainingCapital, totalCapital)
      ensures priceAlert <==> IsPriceAlertTriggered(Settings(), currentPrice)
    {
      var percentage := CapitalPercentage(remainingCapital, totalCapital);
      lowCapital := lowCapitalAlert && AtMost(percentage, lowCapitalThreshold);
      priceAlert := priceAlerts && targetPrice > 0.0
        && ((alertDirection == Above && currentPrice >= targetPrice)
            || (alertDirection == Below && currentPrice <= targetPrice));
    }
  }
}
