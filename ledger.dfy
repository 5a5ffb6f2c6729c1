/**
 * The purchase records and the portfolio summary the page derives from them on every
 * render: sums over the list, the average buy price, unrealized P&L and remaining capital.
 */
module Ledger {
  import opened Wrappers
  import opened JsNumbers

  /** One recorded BTC purchase; `notes` is absent on records saved without a note. */
  datatype Transaction = Transaction(
    id: string,
    date: string,
    btcAmount: real,
    idrAmount: real,
    notes: Option<string>)

  /** What the entry form hands to the page: a transaction still without its id. */
  datatype Entry = Entry(date: string, btcAmount: real, idrAmount: real, notes: Option<string>)

  /** The record the page stores for a submitted entry under a fresh id. */
  function Stamp(entry: Entry, id: string): Transaction
  {
    Transaction(id, entry.date, entry.btcAmount, entry.idrAmount, entry.notes)
  }

  /** The two amounts a transaction carries. */
  datatype Amount = Btc | Idr

  function AmountOf(t: Transaction, a: Amount): real
  {
    match a
    case Btc => t.btcAmount
    case Idr => t.idrAmount
  }

  /** `s.reduce((sum, t) => sum + amount(t), 0)`: a left fold from zero. */
  function Sum(s: seq<Transaction>, a: Amount): real
  {
    if s == [] then 0.0 else Sum(s[..|s| - 1], a) + AmountOf(s[|s| - 1], a)
  }

  /** Every record carries a positive amount of the given kind, as the entry form demands. */
  predicate AllPositive(s: seq<Transaction>, a: Amount)
  {
    forall i :: 0 <= i < |s| ==> AmountOf(s[i], a) > 0.0
  }

  lemma SumAppend(s: seq<Transaction>, t: Transaction, a: Amount)
    ensures Sum(s + [t], a) == Sum(s, a) + AmountOf(t, a)
  {
    assert (s + [t])[..|s|] == s;
  }

  /** The fold over a concatenation is the sum of the folds. */
  lemma {:induction false} SumConcat(p: seq<Transaction>, q: seq<Transaction>, a: Amount)
    ensures Sum(p + q, a) == Sum(p, a) + Sum(q, a)
    decreases |q|
  {
    if q == [] {
      assert p + q == p;
    } else {
      var q' := q[..|q| - 1];
      assert p + q == (p + q') + [q[|q| - 1]];
      SumAppend(p + q', q[|q| - 1], a);
      SumConcat(p, q', a);
      assert q == q' + [q[|q| - 1]];
      SumAppend(q', q[|q| - 1], a);
    }
  }

  /** Taking one record out of the list takes its amount out of the total. */
  lemma SumRemoveAt(t: seq<Transaction>, j: nat, a: Amount)
    requires j < |t|
    ensures Sum(t, a) == Sum(t[..j] + t[j + 1..], a) + AmountOf(t[j], a)
  {
    assert t == (t[..j] + [t[j]]) + t[j + 1..];
    SumConcat(t[..j] + [t[j]], t[j + 1..], a);
    SumAppend(t[..j], t[j], a);
    SumConcat(t[..j], t[j + 1..], a);
  }

  /** Removing the element at `j` removes one occurrence of it from the multiset. */
  lemma MultisetRemoveAt(t: seq<Transaction>, j: nat)
    requires j < |t|
    ensures multiset(t[..j] + t[j + 1..]) == multiset(t) - multiset{t[j]}
  {
    assert t == t[..j] + [t[j]] + t[j + 1..];
  }

  /** The totals do not depend on the order of the records. */
  lemma {:induction false} SumPermutation(s: seq<Transaction>, t: seq<Transaction>, a: Amount)
    requires multiset(s) == multiset(t)
    ensures Sum(s, a) == Sum(t, a)
    decreases |s|
  {
    if s == [] {
      assert |t| == |multiset(t)| == 0;
    } else {
      var j := MatchLast(s, t);
      SumPermutation(s[..|s| - 1], t[..j] + t[j + 1..], a);
      SumRemoveAt(t, j, a);
    }
  }

  /**
   * The last record of `s` sits at some position `j` of its rearrangement `t`; without them the
   * two are still rearrangements of each other.
   */
  lemma MatchLast(s: seq<Transaction>, t: seq<Transaction>) returns (j: nat)
    requires s != [] && multiset(s) == multiset(t)
    ensures j < |t| && t[j] == s[|s| - 1]
    ensures multiset(s[..|s| - 1]) == multiset(t[..j] + t[j + 1..])
  {
    var x := s[|s| - 1];
    assert s == s[..|s| - 1] + [x];
    assert x in multiset(t);
    j :| 0 <= j < |t| && t[j] == x;
    MultisetRemoveAt(t, j);
  }

  /** A non-empty list of positive amounts has a positive total. */
  lemma {:induction false} SumPositive(s: seq<Transaction>, a: Amount)
    requires |s| > 0 && AllPositive(s, a)
    ensures Sum(s, a) > 0.0
    decreases |s|
  {
    if |s| > 1 {
      SumPositive(s[..|s| - 1], a);
    }
  }

  /** The purchase paid between `lo` and `hi` IDR per BTC, stated without dividing. */
  predicate PricedBetween(t: Transaction, lo: real, hi: real)
  {
    lo * t.btcAmount <= t.idrAmount <= hi * t.btcAmount
  }

  /**
   * If every purchase paid between `lo` and `hi` IDR per BTC, the total spent lies between
   * `lo` and `hi` times the total BTC bought.
   */
  lemma {:induction false} SumBetween(s: seq<Transaction>, lo: real, hi: real)
    requires forall i :: 0 <= i < |s| ==> PricedBetween(s[i], lo, hi)
    ensures lo * Sum(s, Btc) <= Sum(s, Idr) <= hi * Sum(s, Btc)
    decreases |s|
  {
    if s == [] {
      assert Sum(s, Btc) == 0.0 && Sum(s, Idr) == 0.0;
    } else {
      var init, last := s[..|s| - 1], s[|s| - 1];
      assert PricedBetween(last, lo, hi);
      SumBetween(init, lo, hi);
      BetweenStep(lo, hi, Sum(init, Btc), Sum(init, Idr), last.btcAmount, last.idrAmount, Sum(s, Btc), Sum(s, Idr));
    }
  }

  /** Adding one purchase within the bounds to totals within the bounds keeps them within. */
  lemma BetweenStep(lo: real, hi: real, btc: real, idr: real, b: real, i: real, btc': real, idr': real)
    requires btc' == btc + b && idr' == idr + i
    requires lo * btc <= idr <= hi * btc && lo * b <= i <= hi * b
    ensures lo * btc' <= idr' <= hi * btc'
  {
    assert lo * btc' == lo * btc + lo * b;
    assert hi * btc' == hi * btc + hi * b;
  }

  // ---------------------------------------------------------------------------
  // Deleting by id

  /** No record in `s` carries `id`. */
  predicate IdAbsent(s: seq<Transaction>, id: string)
  {
    forall i :: 0 <= i < |s| ==> s[i].id != id
  }

  /** `s.filter(t => t.id !== id)`. */
  function RemoveId(s: seq<Transaction>, id: string): (r: seq<Transaction>)
    ensures |r| <= |s|
    ensures IdAbsent(r, id)
  {
    if s == [] then []
    else
      var last := s[|s| - 1];
      assert s == s[..|s| - 1] + [last];
      RemoveId(s[..|s| - 1], id) + (if last.id == id then [] else [last])
  }

  /** The filter keeps exactly the records of `s` whose id differs from `id`. */
  lemma {:induction false} RemoveIdKeeps(s: seq<Transaction>, id: string, t: Transaction)
    ensures t in RemoveId(s, id) <==> t in s && t.id != id
    decreases |s|
  {
    if s != [] {
      var init, last := s[..|s| - 1], s[|s| - 1];
      RemoveIdKeeps(init, id, t);
      assert s == init + [last];
      assert t in s <==> t in init || t == last;
    }
  }

  /** Deleting keeps the surviving records in their original order. */
  lemma {:induction false} RemoveIdConcat(p: seq<Transaction>, q: seq<Transaction>, id: string)
    ensures RemoveId(p + q, id) == RemoveId(p, id) + RemoveId(q, id)
    decreases |q|
  {
    if q == [] {
      assert p + q == p;
    } else {
      var q' := q[..|q| - 1];
      assert p + q == (p + q') + [q[|q| - 1]];
      assert (p + q)[..|p + q| - 1] == p + q';
      RemoveIdConcat(p, q', id);
    }
  }

  /** Deleting an id that no record carries changes nothing. */
  lemma {:induction false} RemoveAbsentId(s: seq<Transaction>, id: string)
    requires IdAbsent(s, id)
    ensures RemoveId(s, id) == s
    decreases |s|
  {
    if s != [] {
      assert s == s[..|s| - 1] + [s[|s| - 1]];
      RemoveAbsentId(s[..|s| - 1], id);
    }
  }

  /** Adding a record under a new id and then deleting that id restores the list. */
  lemma AddThenDelete(s: seq<Transaction>, entry: Entry, id: string)
    requires IdAbsent(s, id)
    ensures RemoveId(s + [Stamp(entry, id)], id) == s
  {
    RemoveIdConcat(s, [Stamp(entry, id)], id);
    RemoveAbsentId(s, id);
    assert RemoveId([Stamp(entry, id)], id) == [];
  }

  // ---------------------------------------------------------------------------
  // The portfolio summary

  datatype PortfolioData = PortfolioData(
    totalBTC: real,
    totalSpent: real,
    averageBuyPrice: Num,
    currentPrice: real,
    unrealizedPnL: real,
    totalCapital: real,
    remainingCapital: real)

  /** The relations between the summary's fields that every derived summary satisfies. */
  predicate Consistent(d: PortfolioData)
  {
    && d.unrealizedPnL == d.totalBTC * d.currentPrice - d.totalSpent
    && d.remainingCapital == d.totalCapital - d.totalSpent
  }

  /**
   * The summary recomputed from the list on every render. The average is `totalSpent / totalBTC`
   * for a non-empty list, evaluated as JavaScript does (a zero total BTC gives NaN or Infinity).
   */
  function Summarize(ts: seq<Transaction>, currentPrice: real, totalCapital: real): (d: PortfolioData)
    ensures Consistent(d)
    ensures d.currentPrice == currentPrice && d.totalCapital == totalCapital
  {
    var totalBTC := Sum(ts, Btc);
    var totalSpent := Sum(ts, Idr);
    PortfolioData(
      totalBTC,
      totalSpent,
      if |ts| > 0 then Div(totalSpent, totalBTC) else Finite(0.0),
      currentPrice,
      totalBTC * currentPrice - totalSpent,
      totalCapital,
      totalCapital - totalSpent)
  }

  /** With no purchases every amount is zero and all the capital remains. */
  lemma SummaryOfEmpty(currentPrice: real, totalCapital: real)
    ensures Summarize([], currentPrice, totalCapital)
         == PortfolioData(0.0, 0.0, Finite(0.0), currentPrice, 0.0, totalCapital, totalCapital)
  {
  }

  /** While no price has arrived (price 0) the P&L is minus the amount spent. */
  lemma PnLWithoutPrice(ts: seq<Transaction>, totalCapital: real)
    ensures Summarize(ts, 0.0, totalCapital).unrealizedPnL == -Sum(ts, Idr)
  {
  }

  /** Remaining capital is not clamped: it is negative exactly when spending exceeds capital. */
  lemma RemainingCapitalSign(ts: seq<Transaction>, currentPrice: real, totalCapital: real)
    ensures Summarize(ts, currentPrice, totalCapital).remainingCapital < 0.0 <==> Sum(ts, Idr) > totalCapital
  {
  }

  /** With positive BTC amounts the average is a finite quotient of the two totals. */
  lemma AverageDefined(ts: seq<Transaction>, currentPrice: real, totalCapital: real)
    requires |ts| > 0 && AllPositive(ts, Btc)
    ensures Sum(ts, Btc) > 0.0
    ensures Summarize(ts, currentPrice, totalCapital).averageBuyPrice == Finite(Sum(ts, Idr) / Sum(ts, Btc))
  {
    SumPositive(ts, Btc);
  }

  /** A quotient with a positive divisor lies between two bounds exactly when the dividend lies between the scaled bounds. */
  lemma QuotientBetween(num: real, den: real, lo: real, hi: real)
    requires den > 0.0
    ensures lo <= num / den <= hi <==> lo * den <= num <= hi * den
  {
    var q := num / den;
    assert q * den == num;
    assert lo <= q <==> lo * den <= q * den;
    assert q <= hi <==> q * den <= hi * den;
  }

  /** The average buy price lies between the lowest and the highest price paid per BTC. */
  lemma AverageBetweenEntryPrices(ts: seq<Transaction>, lo: real, hi: real, currentPrice: real, totalCapital: real)
    requires |ts| > 0 && AllPositive(ts, Btc)
    requires forall i :: 0 <= i < |ts| ==> lo <= ts[i].idrAmount / ts[i].btcAmount <= hi
    ensures var avg := Summarize(ts, currentPrice, totalCapital).averageBuyPrice;
      avg.Finite? && lo <= avg.value <= hi
  {
    forall i | 0 <= i < |ts|
      ensures PricedBetween(ts[i], lo, hi)
    {
      assert AmountOf(ts[i], Btc) > 0.0;
      QuotientBetween(ts[i].idrAmount, ts[i].btcAmount, lo, hi);
    }
    SumBetween(ts, lo, hi);
    AverageDefined(ts, currentPrice, totalCapital);
    QuotientBetween(Sum(ts, Idr), Sum(ts, Btc), lo, hi);
  }

  /** The summary does not depend on the order of the records. */
  lemma SummaryIgnoresOrder(s: seq<Transaction>, t: seq<Transaction>, currentPrice: real, totalCapital: real)
    requires multiset(s) == multiset(t)
    ensures Summarize(s, currentPrice, totalCapital) == Summarize(t, currentPrice, totalCapital)
  {
    SumPermutation(s, t, Btc);
    SumPermutation(s, t, Idr);
    assert |s| == |multiset(s)| == |t|;
  }

  /** Recording an entry adds its amounts to the totals and takes its IDR from the remaining capital. */
  lemma SummaryAfterAdd(s: seq<Transaction>, entry: Entry, id: string, currentPrice: real, totalCapital: real)
    ensures var before := Summarize(s, currentPrice, totalCapital);
      var after := Summarize(s + [Stamp(entry, id)], currentPrice, totalCapital);
      && after.totalBTC == before.totalBTC + entry.btcAmount
      && after.totalSpent == before.totalSpent + entry.idrAmount
      && after.remainingCapital == before.remainingCapital - entry.idrAmount
  {
    SumAppend(s, Stamp(entry, id), Btc);
    SumAppend(s, Stamp(entry, id), Idr);
  }

  // ---------------------------------------------------------------------------
  // Display of BTC amounts

  /**
   * The prefix `formatBTC` writes before the amount: the three characters U+00E2, U+201A, U+00BF
   * that the file's text holds where the bitcoin sign U+20BF was meant (its UTF-8 bytes read
   * as Windows-1252).
   */
  const BtcPrefix: string := "\U{E2}\U{201A}\U{BF}"

  /** `formatBTC`: the prefix followed by the amount written with eight decimals. */
  function FormatBtc(amount: real): (s: string)
    ensures |s| >= 4 && s[..3] == BtcPrefix
    ensures s[3] == '-' <==> amount < 0.0
  {
    BtcPrefix + ToFixed(amount, 8)
  }

  /** What follows the prefix reads back as the amount rounded to a satoshi. */
  lemma FormatBtcReadBack(amount: real)
    ensures ParseFloat(FormatBtc(amount)[3..]) == Some(Rounded(amount, 8))
    ensures -0.000000005 <= Rounded(amount, 8) - amount <= 0.000000005
  {
    assert FormatBtc(amount)[3..] == ToFixed(amount, 8);
    ToFixedReadBack(amount, 8);
    SatoshiRounding(amount);
  }
}
