/**
 * The performance charts: the portfolio's value over time (one point per purchase, oldest
 * first, with running totals), the price paid per BTC at each purchase, and a two-slice pie
 * of the money invested against the profit or loss.
 */
module Charts {
  import opened JsNumbers
  import opened Ledger
  import opened DateOrder
  import opened Overview

  /** One point of the value-over-time chart. */
  datatype ChartPoint = ChartPoint(date: string, totalSpent: real, currentValue: real, btcAmount: real, pnl: real)

  /** The point of a purchase dated `date`, given the totals bought up to and including it. */
  function Point(date: string, totalSpent: real, totalBTC: real, currentPrice: real): ChartPoint
  {
    var currentValue := totalBTC * currentPrice;
    ChartPoint(date, totalSpent, currentValue, totalBTC, currentValue - totalSpent)
  }

  /** The point for the `i`-th purchase, from the totals of the purchases up to and including it. */
  function PointAt(sorted: seq<Transaction>, i: nat, currentPrice: real): ChartPoint
    requires i < |sorted|
  {
    var previous := sorted[..i + 1];
    Point(sorted[i].date, Sum(previous, Idr), Sum(previous, Btc), currentPrice)
  }

  /** Points for the purchases of an already sorted list. */
  function Points(sorted: seq<Transaction>, currentPrice: real): (points: seq<ChartPoint>)
    ensures |points| == |sorted|
  {
    seq(|sorted|, i requires 0 <= i < |sorted| => PointAt(sorted, i, currentPrice))
  }

  /** The value-over-time series: a sorted copy of the purchases, then one point per purchase. */
  function PortfolioSeries(ts: seq<Transaction>, currentPrice: real): seq<ChartPoint>
  {
    Points(SortByDate(ts, Ascending), currentPrice)
  }

  /**
   * The series is a running total: each point adds its own purchase to the totals of the point
   * before it, and the first point holds just the first purchase.
   */
  lemma RunningTotals(sorted: seq<Transaction>, currentPrice: real, i: nat)
    requires i < |sorted|
    ensures var points := Points(sorted, currentPrice);
      && points[i].btcAmount == (if i == 0 then 0.0 else points[i - 1].btcAmount) + sorted[i].btcAmount
      && points[i].totalSpent == (if i == 0 then 0.0 else points[i - 1].totalSpent) + sorted[i].idrAmount
  {
    assert sorted[..i + 1] == sorted[..i] + [sorted[i]];
    SumAppend(sorted[..i], sorted[i], Btc);
    SumAppend(sorted[..i], sorted[i], Idr);
  }

  /**
   * Each point carries the date of its purchase, the totals of the purchases up to it in date
   * order, their value at the current price and the P&L at that value.
   */
  lemma SeriesPoint(ts: seq<Transaction>, currentPrice: real, i: nat)
    requires i < |ts|
    ensures |PortfolioSeries(ts, currentPrice)| == |ts|
    ensures var sorted := SortByDate(ts, Ascending);
      var p := PortfolioSeries(ts, currentPrice)[i];
      && p.date == sorted[i].date
      && p.btcAmount == Sum(sorted[..i + 1], Btc)
      && p.totalSpent == Sum(sorted[..i + 1], Idr)
      && p.currentValue == p.btcAmount * currentPrice
      && p.pnl == p.currentValue - p.totalSpent
  {
    var sorted := SortByDate(ts, Ascending);
    PointOfSorted(sorted, currentPrice, i);
    assert PortfolioSeries(ts, currentPrice)[i] == Points(sorted, currentPrice)[i];
  }

  /** What the `i`-th point of an already sorted list holds. */
  lemma PointOfSorted(sorted: seq<Transaction>, currentPrice: real, i: nat)
    requires i < |sorted|
    ensures var p := Points(sorted, currentPrice)[i];
      && p.date == sorted[i].date
      && p.btcAmount == Sum(sorted[..i + 1], Btc)
      && p.totalSpent == Sum(sorted[..i + 1], Idr)
      && p.currentValue == p.btcAmount * currentPrice
      && p.pnl == p.currentValue - p.totalSpent
  {
  }

  /** The points run oldest first. */
  lemma SeriesInDateOrder(ts: seq<Transaction>, currentPrice: real, i: nat, j: nat)
    requires i < j < |ts|
    ensures |PortfolioSeries(ts, currentPrice)| == |ts|
    ensures DateKey(PortfolioSeries(ts, currentPrice)[i].date) <= DateKey(PortfolioSeries(ts, currentPrice)[j].date)
  {
    SortedDates(ts, Ascending, i, j);
  }

  /** A permutation of positive purchases is still all positive. */
  lemma PositiveAfterSort(ts: seq<Transaction>, a: Amount)
    requires AllPositive(ts, a)
    ensures AllPositive(SortByDate(ts, Ascending), a)
  {
    var sorted := SortByDate(ts, Ascending);
    forall k | 0 <= k < |sorted|
      ensures AmountOf(sorted[k], a) > 0.0
    {
      assert sorted[k] in multiset(ts);
    }
  }

  /** With positive amounts, both running totals strictly increase from point to point. */
  lemma SeriesIncreasing(ts: seq<Transaction>, currentPrice: real, i: nat, j: nat)
    requires i < j < |ts|
    requires AllPositive(ts, Btc) && AllPositive(ts, Idr)
    ensures |PortfolioSeries(ts, currentPrice)| == |ts|
    ensures PortfolioSeries(ts, currentPrice)[i].btcAmount < PortfolioSeries(ts, currentPrice)[j].btcAmount
    ensures PortfolioSeries(ts, currentPrice)[i].totalSpent < PortfolioSeries(ts, currentPrice)[j].totalSpent
  {
    var sorted := SortByDate(ts, Ascending);
    PositiveAfterSort(ts, Btc);
    PositiveAfterSort(ts, Idr);
    var later := sorted[i + 1..j + 1];
    assert sorted[..j + 1] == sorted[..i + 1] + later;
    assert |later| > 0;
    assert AllPositive(later, Btc) && AllPositive(later, Idr) by {
      forall k | 0 <= k < |later|
        ensures AmountOf(later[k], Btc) > 0.0 && AmountOf(later[k], Idr) > 0.0
      {
        assert later[k] == sorted[i + 1 + k];
      }
    }
    SumConcat(sorted[..i + 1], later, Btc);
    SumConcat(sorted[..i + 1], later, Idr);
    SumPositive(later, Btc);
    SumPositive(later, Idr);
    SeriesPoint(ts, currentPrice, i);
    SeriesPoint(ts, currentPrice, j);
  }

  /** The last point holds the whole portfolio: the same totals as the summary and the pie. */
  lemma SeriesEndsAtTotals(ts: seq<Transaction>, currentPrice: real, totalCapital: real)
    requires |ts| > 0
    ensures |PortfolioSeries(ts, currentPrice)| == |ts|
    ensures var last := PortfolioSeries(ts, currentPrice)[|ts| - 1];
      var d := Summarize(ts, currentPrice, totalCapital);
      last.btcAmount == d.totalBTC && last.totalSpent == d.totalSpent && last.pnl == d.unrealizedPnL
  {
    var sorted := SortByDate(ts, Ascending);
    LastPoint(sorted, currentPrice);
    SummaryIgnoresOrder(sorted, ts, currentPrice, totalCapital);
    assert PortfolioSeries(ts, currentPrice) == Points(sorted, currentPrice);
  }

  /** The last point of a series carries the totals of the whole list. */
  lemma LastPoint(sorted: seq<Transaction>, currentPrice: real)
    requires sorted != []
    ensures |Points(sorted, currentPrice)| == |sorted|
    ensures Points(sorted, currentPrice)[|sorted| - 1]
         == Point(sorted[|sorted| - 1].date, Sum(sorted, Idr), Sum(sorted, Btc), currentPrice)
  {
    assert sorted[..|sorted|] == sorted;
  }

  // ---------------------------------------------------------------------------
  // Entry prices

  datatype EntryPricePoint = EntryPricePoint(date: string, entryPrice: Num, currentPrice: real)

  /** One entry per purchase, oldest first: the price paid per BTC beside the current price. */
  function EntryPriceData(ts: seq<Transaction>, currentPrice: real): (r: seq<EntryPricePoint>)
    ensures |r| == |ts|
  {
    var sorted := SortByDate(ts, Ascending);
    seq(|sorted|, i requires 0 <= i < |sorted| =>
      EntryPricePoint(sorted[i].date, Div(sorted[i].idrAmount, sorted[i].btcAmount), currentPrice))
  }

  /**
   * Every entry shows the same current price, and the price paid is finite for every purchase
   * of a positive BTC amount; in total, the entries describe exactly the purchases.
   */
  lemma EntryPrices(ts: seq<Transaction>, currentPrice: real)
    requires AllPositive(ts, Btc)
    ensures AllPositive(SortByDate(ts, Ascending), Btc)
    ensures forall i :: 0 <= i < |ts| ==> EntryPriceData(ts, currentPrice)[i].currentPrice == currentPrice
    ensures forall i :: 0 <= i < |ts| ==>
      var sorted := SortByDate(ts, Ascending);
      EntryPriceData(ts, currentPrice)[i]
        == EntryPricePoint(sorted[i].date, Finite(sorted[i].idrAmount / sorted[i].btcAmount), currentPrice)
  {
    PositiveAfterSort(ts, Btc);
  }

  // ---------------------------------------------------------------------------
  // The pie

  datatype Slice = Slice(name: string, value: real, color: string)

  const Orange := "#f97316"
  const Green := "#10b981"
  const Red := "#ef4444"

  /** Invested money, then profit or loss: green only when the value strictly exceeds the cost. */
  function PieData(ts: seq<Transaction>, currentPrice: real): (slices: seq<Slice>)
    ensures |slices| == 2
    ensures slices[0] == Slice("Investasi", Sum(ts, Idr), Orange)
    ensures slices[1].name == "Profit/Loss"
    ensures slices[0].value + slices[1].value == Sum(ts, Btc) * currentPrice
    ensures slices[1].color == Green <==> Sum(ts, Btc) * currentPrice > Sum(ts, Idr)
    ensures slices[1].color == Green || slices[1].color == Red
  {
    var totalSpent := Sum(ts, Idr);
    var totalBTC := Sum(ts, Btc);
    var currentValue := totalBTC * currentPrice;
    [ Slice("Investasi", totalSpent, Orange),
      Slice("Profit/Loss", currentValue - totalSpent, if currentValue > totalSpent then Green else Red) ]
  }

  /** The pie's slices are the summary's amount spent and unrealized P&L. */
  lemma PieMatchesSummary(ts: seq<Transaction>, currentPrice: real, totalCapital: real)
    ensures var d := Summarize(ts, currentPrice, totalCapital);
      PieData(ts, currentPrice)[0].value == d.totalSpent && PieData(ts, currentPrice)[1].value == d.unrealizedPnL
  {
  }

  /**
   * At break-even the overview counts a profit while the pie's slice is red: the two views
   * use different tests. Away from break-even they agree.
   */
  lemma PieColourAgainstOverview(ts: seq<Transaction>, currentPrice: real, totalCapital: real)
    ensures var d := Summarize(ts, currentPrice, totalCapital);
      (PieData(ts, currentPrice)[1].color == Green <==> IsProfit(d) && d.unrealizedPnL != 0.0)
  {
  }
}
