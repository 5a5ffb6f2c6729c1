/**
 * The four overview cards: holdings value, average buy price, unrealized P&L with its
 * percentage badge, and remaining capital, all read off the portfolio summary.
 */
module Overview {
  import opened Wrappers
  import opened JsNumbers
  import opened Ledger

  /** P&L as a percentage of the amount spent; 0 while nothing has been spent. */
  function ProfitPercentage(d: PortfolioData): real
  {
    if d.totalSpent > 0.0 then d.unrealizedPnL / d.totalSpent * 100.0 else 0.0
  }

  /** Break-even counts as profit. */
  predicate IsProfit(d: PortfolioData)
  {
    d.unrealizedPnL >= 0.0
  }

  /** The value of the BTC held at the current price. */
  function HoldingsValue(d: PortfolioData): real
  {
    d.totalBTC * d.currentPrice
  }

  /** `averageBuyPrice || 0`: a falsy average (0 or NaN) is shown as 0. */
  function DisplayedAverage(average: Num): (shown: Num)
    ensures shown != NaN
    ensures shown == average || shown == Finite(0.0)
    ensures Truthy(average) <==> shown == average && average != Finite(0.0)
  {
    if Truthy(average) then average else Finite(0.0)
  }

  /** The badge under the P&L: `+` for a profit, then the percentage to two decimals and `%`. */
  function ChangeBadge(d: PortfolioData): (badge: string)
    ensures |badge| >= 2 && badge[|badge| - 1] == '%'
  {
    (if IsProfit(d) then "+" else "") + ToFixed(ProfitPercentage(d), 2) + "%"
  }

  /** With money spent, the percentage is the P&L per hundred spent. */
  lemma ProfitPercentageScaled(d: PortfolioData)
    requires d.totalSpent > 0.0
    ensures ProfitPercentage(d) * d.totalSpent == d.unrealizedPnL * 100.0
  {
    var q := d.unrealizedPnL / d.totalSpent;
    assert q * d.totalSpent == d.unrealizedPnL;
    calc {
      ProfitPercentage(d) * d.totalSpent;
      q * 100.0 * d.totalSpent;
      q * d.totalSpent * 100.0;
    }
  }

  /** With money spent, the percentage is non-negative exactly for a profit. */
  lemma ProfitSignAgrees(d: PortfolioData)
    requires d.totalSpent > 0.0
    ensures ProfitPercentage(d) >= 0.0 <==> IsProfit(d)
    ensures ProfitPercentage(d) < 0.0 <==> d.unrealizedPnL < 0.0
  {
    ProfitPercentageScaled(d);
    var p := ProfitPercentage(d);
    if p < 0.0 {
      assert p * d.totalSpent < 0.0;
    } else {
      assert p * d.totalSpent >= 0.0;
    }
  }

  /**
   * The badge starts with `+` exactly for a profit and with `-` exactly for a loss on money
   * spent, so it never shows two signs. A loss with nothing spent reads `0.00%`.
   */
  lemma BadgeSign(d: PortfolioData)
    ensures ChangeBadge(d)[0] == '+' <==> IsProfit(d)
    ensures ChangeBadge(d)[0] == '-' <==> d.totalSpent > 0.0 && d.unrealizedPnL < 0.0
  {
    var digits := ToFixed(ProfitPercentage(d), 2);
    if d.totalSpent > 0.0 {
      ProfitSignAgrees(d);
    }
    if IsProfit(d) {
      assert ChangeBadge(d) == "+" + digits + "%";
    } else {
      assert ChangeBadge(d) == digits + "%";
      assert digits[0] != '+';
    }
  }

  /**
   * Between the optional `+` and the closing `%`, the badge shows the percentage with two
   * decimals, which reads back as the percentage rounded to a hundredth.
   */
  lemma BadgeFigure(d: PortfolioData)
    ensures var badge := ChangeBadge(d);
      var start := if IsProfit(d) then 1 else 0;
      && start < |badge| - 1
      && badge[start..|badge| - 1] == ToFixed(ProfitPercentage(d), 2)
      && ParseFloat(badge[start..|badge| - 1]) == Some(Rounded(ProfitPercentage(d), 2))
  {
    var figure := ToFixed(ProfitPercentage(d), 2);
    if IsProfit(d) {
      assert ChangeBadge(d) == "+" + figure + "%";
      assert ChangeBadge(d)[1..|ChangeBadge(d)| - 1] == figure;
    } else {
      assert ChangeBadge(d) == figure + "%";
      assert ChangeBadge(d)[0..|ChangeBadge(d)| - 1] == figure;
    }
    ToFixedReadBack(ProfitPercentage(d), 2);
  }

  /** The P&L card shows the holdings value less the amount spent. */
  lemma PnLIsHoldingsLessSpent(ts: seq<Transaction>, currentPrice: real, totalCapital: real)
    ensures var d := Summarize(ts, currentPrice, totalCapital);
      d.unrealizedPnL == HoldingsValue(d) - d.totalSpent
  {
  }

  /**
   * With every purchase of a positive BTC amount, the average card shows total spent over total
   * BTC; with no purchases it shows 0.
   */
  lemma DisplayedAverageOfSummary(ts: seq<Transaction>, currentPrice: real, totalCapital: real)
    requires AllPositive(ts, Btc)
    ensures ts != [] ==> Sum(ts, Btc) > 0.0
    ensures var d := Summarize(ts, currentPrice, totalCapital);
      DisplayedAverage(d.averageBuyPrice) == Finite(if ts == [] then 0.0 else d.totalSpent / d.totalBTC)
  {
    if ts != [] {
      AverageDefined(ts, currentPrice, totalCapital);
    }
  }
}
