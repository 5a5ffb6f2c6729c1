/**
 * The transaction history: an empty state for an empty list; otherwise the list sorted newest
 * first in place, one row per purchase with its price per BTC, a delete button behind a
 * confirmation, and a CSV export of the list.
 */
module History {
  import opened Wrappers
  import opened JsNumbers
  import opened Ledger
  import opened DateOrder

  // ---------------------------------------------------------------------------
  // Joining and splitting text

  /** `parts.join(sep)` for a one-character separator. */
  function Join(parts: seq<string>, sep: char): string
  {
    if |parts| == 0 then ""
    else if |parts| == 1 then parts[0]
    else parts[0] + [sep] + Join(parts[1..], sep)
  }

  /** The position of the first `c` in `s`. */
  function IndexOf(s: string, c: char): (k: nat)
    requires c in s
    ensures k < |s| && s[k] == c && c !in s[..k]
  {
    if s[0] == c then 0 else IndexOf(s[1..], c) + 1
  }

  /** `s.split(sep)`: the pieces between the separators, at least one. */
  function Split(s: string, sep: char): (parts: seq<string>)
    ensures |parts| >= 1
    decreases |s|
  {
    if sep !in s then [s]
    else
      var k := IndexOf(s, sep);
      [s[..k]] + Split(s[k + 1..], sep)
  }

  /** No part contains the character `c`. */
  predicate FreeOf(parts: seq<string>, c: char)
  {
    forall i :: 0 <= i < |parts| ==> c !in parts[i]
  }

  /** Splitting a join at its separator gives back the parts when none of them contains it. */
  lemma {:induction false} SplitJoin(parts: seq<string>, sep: char)
    requires |parts| >= 1 && FreeOf(parts, sep)
    ensures Split(Join(parts, sep), sep) == parts
    decreases |parts|
  {
    if |parts| > 1 {
      var s := Join(parts, sep);
      var p := parts[0];
      assert s == p + [sep] + Join(parts[1..], sep);
      assert s[|p|] == sep;
      assert s[..|p|] == p;
      assert sep in s;
      assert IndexOf(s, sep) == |p|;
      assert s[|p| + 1..] == Join(parts[1..], sep);
      SplitJoin(parts[1..], sep);
    }
  }

  /** Joining parts free of `c` with a separator other than `c` gives a text free of `c`. */
  lemma {:induction false} JoinFreeOf(parts: seq<string>, sep: char, c: char)
    requires c != sep && FreeOf(parts, c)
    ensures c !in Join(parts, sep)
    decreases |parts|
  {
    if |parts| > 1 {
      JoinFreeOf(parts[1..], sep, c);
    }
  }

  // ---------------------------------------------------------------------------
  // CSV export

  const Headers: seq<string> := ["Tanggal", "Jumlah BTC", "Jumlah IDR", "Harga per BTC", "Catatan"]

  /** `notes || ''`: a missing note is written as an empty one. */
  function NotesText(notes: Option<string>): string
  {
    match notes
    case Some(n) => n
    case None => ""
  }

  /** The price paid per BTC, `idrAmount / btcAmount`. */
  function PricePerBtc(t: Transaction): (price: Num)
    ensures t.btcAmount != 0.0 ==> price == Finite(t.idrAmount / t.btcAmount)
    ensures t.btcAmount == 0.0 ==> !price.Finite?
  {
    Div(t.idrAmount, t.btcAmount)
  }

  /**
   * The five fields of a purchase's line: the date, BTC to eight decimals, IDR as toString
   * writes it, the price per BTC rounded to a whole rupiah, and the note between double quotes.
   */
  function CsvFields(t: Transaction): (fields: seq<string>)
    ensures |fields| == |Headers|
  {
    [t.date, ToFixed(t.btcAmount, 8), NumberToString(t.idrAmount), FormatFixed(PricePerBtc(t), 0),
     "\"" + NotesText(t.notes) + "\""]
  }

  function CsvRow(t: Transaction): string
  {
    Join(CsvFields(t), ',')
  }

  /** One line per purchase, in the list's order. */
  function CsvRows(ts: seq<Transaction>): (rows: seq<string>)
    ensures |rows| == |ts|
    ensures forall i :: 0 <= i < |ts| ==> rows[i] == CsvRow(ts[i])
  {
    seq(|ts|, i requires 0 <= i < |ts| => CsvRow(ts[i]))
  }

  /** The header line followed by the purchases' lines. */
  function CsvLines(ts: seq<Transaction>): (lines: seq<string>)
    ensures |lines| == |ts| + 1
  {
    [Join(Headers, ',')] + CsvRows(ts)
  }

  /** `exportToCSV`'s content: the lines joined by line feeds. */
  function ExportCsv(ts: seq<Transaction>): string
  {
    Join(CsvLines(ts), '\n')
  }

  /** A text `toFixed` or `toString` writes holds no comma, line feed or double quote. */
  lemma NumeralFree(s: string)
    requires IsNumeralText(s)
    ensures ',' !in s && '\n' !in s && '"' !in s
  {
    forall k | 0 <= k < |s|
      ensures s[k] != ',' && s[k] != '\n' && s[k] != '"'
    {
      assert IsNumeralChar(s[k]);
    }
  }

  /** The three numeric fields hold neither a comma nor a line feed. */
  lemma NumericFieldsFree(t: Transaction)
    ensures NumeralFieldFree(ToFixed(t.btcAmount, 8))
    ensures NumeralFieldFree(NumberToString(t.idrAmount))
    ensures NumeralFieldFree(FormatFixed(PricePerBtc(t), 0))
  {
    FixedFieldFree(t.btcAmount, 8);
    ShortestFieldFree(t.idrAmount);
    FormattedFieldFree(PricePerBtc(t), 0);
  }

  lemma FormattedFieldFree(n: Num, f: nat)
    ensures NumeralFieldFree(FormatFixed(n, f))
  {
    match n
    case Finite(v) => FixedFieldFree(v, f);
    case PosInfinity => assert FormatFixed(n, f) == "Infinity";
    case NegInfinity => assert FormatFixed(n, f) == "-Infinity";
    case NaN => assert FormatFixed(n, f) == "NaN";
  }

  lemma FixedFieldFree(x: real, f: nat)
    ensures NumeralFieldFree(ToFixed(x, f))
  {
    NumeralFree(ToFixed(x, f));
  }

  lemma ShortestFieldFree(x: real)
    ensures NumeralFieldFree(NumberToString(x))
  {
    NumberToStringIsNumeral(x);
    NumeralFree(NumberToString(x));
  }

  predicate NumeralFieldFree(s: string)
  {
    ',' !in s && '\n' !in s
  }

  /** The date and note of a purchase hold no `c`. */
  predicate TextFree(t: Transaction, c: char)
  {
    c !in t.date && c !in NotesText(t.notes)
  }

  /**
   * When the date and note hold no comma, the line splits at its commas into exactly the five
   * fields, and the numbers read back: BTC rounded to a satoshi, the IDR amount itself (for an
   * amount with at most twenty decimals), and the price per BTC rounded to a whole rupiah.
   */
  lemma RowReadsBack(t: Transaction)
    requires TextFree(t, ',')
    requires t.btcAmount != 0.0 && HasDecimals(t.idrAmount, MaxFractionDigits)
    ensures var f := Split(CsvRow(t), ',');
      && |f| == 5
      && f[0] == t.date
      && ParseFloat(f[1]) == Some(Rounded(t.btcAmount, 8))
      && ParseFloat(f[2]) == Some(t.idrAmount)
      && ParseFloat(f[3]) == Some(Rounded(t.idrAmount / t.btcAmount, 0))
      && f[4] == "\"" + NotesText(t.notes) + "\""
  {
    FieldsFreeOfComma(t);
    SplitJoin(CsvFields(t), ',');
    ToFixedReadBack(t.btcAmount, 8);
    NumberToStringReadBack(t.idrAmount);
    ToFixedReadBack(t.idrAmount / t.btcAmount, 0);
  }

  /** When the date and note hold no comma, no field does. */
  lemma FieldsFreeOfComma(t: Transaction)
    requires TextFree(t, ',')
    ensures FreeOf(CsvFields(t), ',')
  {
    NumericFieldsFree(t);
    assert ',' !in "\"" + NotesText(t.notes) + "\"";
  }

  /** A purchase whose date and note hold no line feed gives a line without one. */
  lemma RowFreeOfLineFeed(t: Transaction)
    requires TextFree(t, '\n')
    ensures '\n' !in CsvRow(t)
  {
    NumericFieldsFree(t);
    assert '\n' !in "\"" + NotesText(t.notes) + "\"";
    JoinFreeOf(CsvFields(t), ',', '\n');
  }

  /**
   * When no date or note holds a line feed, the export splits into the header and one line per
   * purchase, in the list's order.
   */
  lemma ExportLines(ts: seq<Transaction>)
    requires forall i :: 0 <= i < |ts| ==> TextFree(ts[i], '\n')
    ensures Split(ExportCsv(ts), '\n') == CsvLines(ts)
  {
    HeaderFreeOfLineFeed();
    RowsFreeOfLineFeed(ts);
    SplitLines(Join(Headers, ','), CsvRows(ts));
  }

  /** The header line holds no line feed. */
  lemma HeaderFreeOfLineFeed()
    ensures '\n' !in Join(Headers, ',')
  {
    JoinFreeOf(Headers, ',', '\n');
  }

  /** No purchase's line holds a line feed when its date and note do not. */
  lemma RowsFreeOfLineFeed(ts: seq<Transaction>)
    requires forall i :: 0 <= i < |ts| ==> TextFree(ts[i], '\n')
    ensures forall i :: 0 <= i < |ts| ==> '\n' !in CsvRows(ts)[i]
  {
    forall i | 0 <= i < |ts|
      ensures '\n' !in CsvRows(ts)[i]
    {
      RowFreeOfLineFeed(ts[i]);
    }
  }

  /** A header and rows free of line feeds come back from the joined text one by one. */
  lemma SplitLines(header: string, rows: seq<string>)
    requires '\n' !in header
    requires forall i :: 0 <= i < |rows| ==> '\n' !in rows[i]
    ensures Split(Join([header] + rows, '\n'), '\n') == [header] + rows
  {
    FreeOfCons(header, rows, '\n');
    SplitJoin([header] + rows, '\n');
  }

  lemma FreeOfCons(first: string, rest: seq<string>, c: char)
    requires c !in first && FreeOf(rest, c)
    ensures FreeOf([first] + rest, c)
  {
    var parts := [first] + rest;
    forall i | 0 <= i < |parts|
      ensures c !in parts[i]
    {
      if i > 0 {
        assert parts[i] == rest[i - 1];
      }
    }
  }

  /**
   * RFC 4180 (section 2, rule 7) writes a quoted field with every double quote inside it
   * doubled; this is that encoding of a note.
   */
  function EscapeQuotes(s: string): (r: string)
    ensures |r| >= |s|
    ensures |r| == |s| <==> '"' !in s
  {
    if s == [] then []
    else (if s[0] == '"' then "\"\"" else [s[0]]) + EscapeQuotes(s[1..])
  }

  function Rfc4180Field(note: string): string
  {
    "\"" + EscapeQuotes(note) + "\""
  }

  /**
   * The export quotes notes but does not double the quotes inside them: its note field is the
   * RFC 4180 field exactly when the note holds no double quote.
   */
  lemma NoteFieldAgainstRfc4180(t: Transaction)
    ensures CsvFields(t)[4] == Rfc4180Field(NotesText(t.notes)) <==> '"' !in NotesText(t.notes)
  {
    var n := NotesText(t.notes);
    if '"' !in n {
      assert EscapeQuotes(n) == n by {
        EscapeNothing(n);
      }
    } else {
      assert |Rfc4180Field(n)| > |CsvFields(t)[4]|;
    }
  }

  lemma {:induction false} EscapeNothing(s: string)
    requires '"' !in s
    ensures EscapeQuotes(s) == s
  {
    if s != [] {
      assert s == [s[0]] + s[1..];
      EscapeNothing(s[1..]);
    }
  }

  // ---------------------------------------------------------------------------
  // The rendered list

  /** What a row shows besides the amount in rupiah. */
  datatype HistoryRow = HistoryRow(id: string, date: string, pricePerBTC: Num, btc: string, note: Option<string>)

  datatype HistoryView = EmptyState | Listing(rows: seq<HistoryRow>)

  /** A row: the price per BTC, the amount in BTC, and the note only when it is not empty. */
  function Row(t: Transaction): (row: HistoryRow)
    ensures row.id == t.id && row.date == t.date
    ensures row.pricePerBTC == PricePerBtc(t) && row.btc == FormatBtc(t.btcAmount)
    ensures row.note.Some? <==> NotesText(t.notes) != ""
    ensures row.note.Some? ==> row.note.value == NotesText(t.notes)
  {
    HistoryRow(t.id, t.date, PricePerBtc(t), FormatBtc(t.btcAmount),
               if NotesText(t.notes) != "" then Some(NotesText(t.notes)) else None)
  }

  function Rows(ts: seq<Transaction>): (rows: seq<HistoryRow>)
    ensures |rows| == |ts|
    ensures forall i :: 0 <= i < |ts| ==> rows[i].id == ts[i].id && rows[i].date == ts[i].date
  {
    seq(|ts|, i requires 0 <= i < |ts| => Row(ts[i]))
  }

  /**
   * Rendering the history. An empty list shows the empty state and is left alone; otherwise the
   * list given by the page is sorted newest first in place, as `Array.prototype.sort` does, and
   * each row is listed in that order.
   */
  method Render(transactions: array<Transaction>) returns (view: HistoryView)
    modifies transactions
    ensures transactions.Length == 0 <==> view == EmptyState
    ensures view == EmptyState ==> transactions[..] == old(transactions[..])
    ensures view.Listing? ==>
      && transactions[..] == SortByDate(old(transactions[..]), Descending)
      && view.rows == Rows(transactions[..])
  {
    if transactions.Length == 0 {
      return EmptyState;
    }
    var sorted := SortByDate(transactions[..], Descending);
    forall i | 0 <= i < transactions.Length {
      transactions[i] := sorted[i];
    }
    view := Listing(Rows(transactions[..]));
  }

  /** The delete button: the row's id goes to the page only when the user confirms. */
  function DeleteRequest(row: HistoryRow, confirmed: bool): (request: Option<string>)
    ensures request.Some? <==> confirmed
    ensures request.Some? ==> request.value == row.id
  {
    if confirmed then Some(row.id) else None
  }

  /** Rows of the rendered list run newest first and hold the same purchases as before. */
  lemma RenderedOrder(s: seq<Transaction>, i: nat, j: nat)
    requires i < j < |s|
    ensures multiset(SortByDate(s, Descending)) == multiset(s)
    ensures DateKey(Rows(SortByDate(s, Descending))[i].date) >= DateKey(Rows(SortByDate(s, Descending))[j].date)
  {
    SortedDates(s, Descending, i, j);
  }

  /** After a render, the export lists the purchases newest first. */
  lemma ExportAfterRender(s: seq<Transaction>)
    requires forall i :: 0 <= i < |s| ==> TextFree(s[i], '\n')
    ensures var sorted := SortByDate(s, Descending);
      Split(ExportCsv(sorted), '\n')[1..] == seq(|s|, i requires 0 <= i < |s| => CsvRow(sorted[i]))
  {
    var sorted := SortByDate(s, Descending);
    forall i | 0 <= i < |sorted|
      ensures TextFree(sorted[i], '\n')
    {
      assert sorted[i] in multiset(s);
    }
    ExportLines(sorted);
  }
}
