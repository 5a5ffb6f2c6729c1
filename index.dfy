/**
 * The page: the list of purchases, the current BTC price and the total capital, with the
 * handlers that change them and the summary recomputed from them on every render.
 *
 * The list is an array: the history view sorts the very array the page holds, so a render of
 * the history reorders the page's list. Adding and deleting build a new array, as the spread
 * and `filter` of the source build a new list.
 */
module Index {
  import opened Wrappers
  import opened JsNumbers
  import opened Ledger
  import opened DateOrder
  import opened Form
  import opened History

  /** The text typed at the capital prompt, or nothing when the prompt is cancelled. */
  type PromptAnswer = Option<string>

  /**
   * The Set Modal guard: a non-empty answer that parseFloat reads as a number becomes the total
   * capital; a cancelled prompt, an empty answer or an unreadable one leaves it as it is.
   */
  function CapitalAfterPrompt(answer: PromptAnswer, totalCapital: real): (r: real)
    ensures answer.Some? && answer.value != "" && ParseFloat(answer.value).Some?
        ==> r == ParseFloat(answer.value).value
    ensures answer.None? || answer.value == "" || ParseFloat(answer.value).None? ==> r == totalCapital
  {
    if answer.Some? && answer.value != "" then
      var v := ParseFloat(answer.value);
      if v.Some? then v.value else totalCapital
    else totalCapital
  }

  /** The answer `abc` is not a number, so the capital stays. */
  lemma PromptRejectsText(totalCapital: real)
    ensures CapitalAfterPrompt(Some("abc"), totalCapital) == totalCapital
  {
    assert TrimStart("abc") == "abc";
    assert LeadingDigits("abc") == [];
    assert LeadingDigits("bc") == [];
  }

  /** Typing back the capital as the prompt shows it leaves the capital as it is, for a whole amount. */
  lemma PromptDefaultKeepsCapital(totalCapital: nat)
    ensures CapitalAfterPrompt(Some(NumberToString(totalCapital as real)), totalCapital as real)
         == totalCapital as real
  {
    var x := totalCapital as real;
    assert HasDecimals(x, 0);
    assert NumberToString(x) == ToFixed(x, 0);
    ToFixedReadBack(x, 0);
    RoundedWhole(x, 0);
  }

  /** A copy of `s` in a new array. */
  method ArrayOf(s: seq<Transaction>) returns (a: array<Transaction>)
    ensures fresh(a) && a[..] == s
  {
    a := new Transaction[|s|](i requires 0 <= i < |s| => s[i]);
  }

  class Store {
    var transactions: array<Transaction>
    var currentBTCPrice: real
    var totalCapital: real
    var showAddTransaction: bool

    /** The list of purchases, in its current order. */
    function Transactions(): seq<Transaction>
      reads this, transactions
    {
      transactions[..]
    }

    /** The summary the page computes on render. */
    function Summary(): (d: PortfolioData)
      reads this, transactions
      ensures d.currentPrice == currentBTCPrice && d.totalCapital == totalCapital
      ensures d.totalSpent == Sum(Transactions(), Idr) && d.totalBTC == Sum(Transactions(), Btc)
      ensures d.remainingCapital == totalCapital - Sum(Transactions(), Idr)
    {
      Summarize(transactions[..], currentBTCPrice, totalCapital)
    }

    /** No purchases, no price yet, a capital of 100,000,000 IDR and the form closed. */
    constructor()
      ensures fresh(transactions)
      ensures Transactions() == [] && currentBTCPrice == 0.0 && totalCapital == 100000000.0
      ensures !showAddTransaction
    {
      transactions := new Transaction[0];
      currentBTCPrice := 0.0;
      totalCapital := 100000000.0;
      showAddTransaction := false;
    }

    /** A price arrives from the price feed. */
    method ReceivePrice(price: real)
      modifies this
      ensures currentBTCPrice == price
      ensures transactions == old(transactions) && totalCapital == old(totalCapital)
      ensures showAddTransaction == old(showAddTransaction)
    {
      currentBTCPrice := price;
    }

    method OpenForm()
      modifies this
      ensures showAddTransaction
      ensures transactions == old(transactions) && currentBTCPrice == old(currentBTCPrice)
      ensures totalCapital == old(totalCapital)
    {
      showAddTransaction := true;
    }

    method CancelForm()
      modifies this
      ensures !showAddTransaction
      ensures transactions == old(transactions) && currentBTCPrice == old(currentBTCPrice)
      ensures totalCapital == old(totalCapital)
    {
      showAddTransaction := false;
    }

    /**
     * `addTransaction`: the entry, under the id the clock gave, goes at the end of a new list;
     * earlier purchases stay in their order. The form closes.
     */
    method AddTransaction(entry: Entry, id: string)
      modifies this
      ensures fresh(transactions)
      ensures Transactions() == old(Transactions()) + [Stamp(entry, id)]
      ensures currentBTCPrice == old(currentBTCPrice) && totalCapital == old(totalCapital)
      ensures !showAddTransaction
    {
      transactions := ArrayOf(transactions[..] + [Stamp(entry, id)]);
      showAddTransaction := false;
    }

    /** `deleteTransaction`: a new list without the purchases carrying `id`. */
    method DeleteTransaction(id: string)
      modifies this
      ensures fresh(transactions)
      ensures Transactions() == RemoveId(old(Transactions()), id)
      ensures currentBTCPrice == old(currentBTCPrice) && totalCapital == old(totalCapital)
      ensures showAddTransaction == old(showAddTransaction)
    {
      transactions := ArrayOf(RemoveId(transactions[..], id));
    }

    /** The Set Modal button, given what the user answered at the prompt. */
    method SetCapital(answer: PromptAnswer)
      modifies this
      ensures totalCapital == CapitalAfterPrompt(answer, old(totalCapital))
      ensures transactions == old(transactions) && currentBTCPrice == old(currentBTCPrice)
      ensures showAddTransaction == old(showAddTransaction)
    {
      if answer.Some? && answer.value != "" {
        var v := ParseFloat(answer.value);
        if v.Some? {
          totalCapital := v.value;
        }
      }
    }

    /**
     * Saving the open form: the form decides against the remaining capital of the summary, and
     * only an accepted entry is added, which leaves the remaining capital at zero or above.
     */
    method SubmitForm(form: FormData, id: string) returns (outcome: Result<Entry, Rejection>)
      modifies this
      ensures outcome == Submit(form, old(Summary()).remainingCapital)
      ensures outcome.Success? ==>
        && Transactions() == old(Transactions()) + [Stamp(outcome.value, id)]
        && Summary().remainingCapital == old(Summary()).remainingCapital - outcome.value.idrAmount
        && 0.0 <= Summary().remainingCapital
        && !showAddTransaction
      ensures outcome.Failure? ==>
        transactions == old(transactions) && showAddTransaction == old(showAddTransaction)
      ensures currentBTCPrice == old(currentBTCPrice) && totalCapital == old(totalCapital)
    {
      var remaining := Summary().remainingCapital;
      outcome := Submit(form, remaining);
      if outcome.Success? {
        SumAppend(transactions[..], Stamp(outcome.value, id), Idr);
        AddTransaction(outcome.value, id);
      }
    }

    /**
     * Rendering the history on the page's own list: the list is sorted newest first in place,
     * so every later view and export sees that order; the summary does not change.
     */
    method RenderHistory() returns (view: HistoryView)
      modifies transactions
      ensures view == EmptyState <==> Transactions() == []
      ensures Transactions() == SortByDate(old(Transactions()), Descending)
      ensures Summary() == old(Summary())
    {
      view := Render(transactions);
      SummaryIgnoresOrder(transactions[..], old(transactions[..]), currentBTCPrice, totalCapital);
      if view == EmptyState {
        assert transactions[..] == [];
      }
    }
  }

  /** Adding a purchase under an unused id and deleting that id restores the list and its summary. */
  lemma AddThenDeleteRestores(s: seq<Transaction>, entry: Entry, id: string, currentPrice: real, totalCapital: real)
    requires IdAbsent(s, id)
    ensures RemoveId(s + [Stamp(entry, id)], id) == s
    ensures Summarize(RemoveId(s + [Stamp(entry, id)], id), currentPrice, totalCapital)
         == Summarize(s, currentPrice, totalCapital)
  {
    AddThenDelete(s, entry, id);
  }

  /** Deleting an id no purchase carries leaves the list and the summary as they are. */
  lemma DeleteUnknownId(s: seq<Transaction>, id: string, currentPrice: real, totalCapital: real)
    requires IdAbsent(s, id)
    ensures Summarize(RemoveId(s, id), currentPrice, totalCapital) == Summarize(s, currentPrice, totalCapital)
  {
    RemoveAbsentId(s, id);
  }

  /**
   * A purchase accepted against the remaining capital of the list so far never makes the list
   * spend more than the capital, and it strictly raises the amount spent.
   */
  lemma AcceptedEntriesStayWithinCapital(s: seq<Transaction>, form: FormData, id: string,
                                         currentPrice: real, totalCapital: real)
    requires Submit(form, Summarize(s, currentPrice, totalCapital).remainingCapital).Success?
    ensures var entry := Submit(form, Summarize(s, currentPrice, totalCapital).remainingCapital).value;
      && Sum(s + [Stamp(entry, id)], Idr) <= totalCapital
      && Sum(s + [Stamp(entry, id)], Idr) > Sum(s, Idr)
  {
    var entry := Submit(form, Summarize(s, currentPrice, totalCapital).remainingCapital).value;
    SumAppend(s, Stamp(entry, id), Idr);
  }
}
