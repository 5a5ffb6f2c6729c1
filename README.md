# BTC purchase tracker, modelled in Dafny

The tracker is a single-page app. It records purchases of Bitcoin paid in Indonesian rupiah
(IDR) and shows a summary on every render: total BTC, total spent, average buy price, unrealized
P&L at the live price, and the capital left. It also shows charts, a history list with CSV export,
and two alerts. This project models the decision logic of the page, of the four components it
renders (overview, charts, history and entry form), and of the alerts panel, a fifth component
that the page does not import:

- **`Ledger`**: the records and their totals. It covers the `Transaction` and `PortfolioData`
  shapes, the sums and the summary derivation, delete-by-id, and `formatBTC`. The prefix
  `formatBTC` writes is the three characters `â‚¿` (U+00E2, U+201A, U+00BF) that its source text
  holds: the UTF-8 bytes of the bitcoin sign `₿` read as Windows-1252. The model keeps those
  three characters, as the page shows them.
- **`Index`**: the page's state as a class `Store`. It holds the list of purchases (an array),
  the current price, the total capital and whether the entry form is open. Its handlers are
  add, delete, Set Modal, a price arriving, submitting the form and rendering the history.
- **`Form`**: the entry form as a class `EntryForm`, holding four text fields and the calculation
  mode. `Submit` is the accept/reject decision. `Calculate` is the IDR↔BTC calculator.
- **`Alerts`**: the alert settings as a class `AlertsPanel`, their defaults and restore, and the
  two level-triggered alerts (low capital, price target).
- **`Charts`**: the value-over-time series, a prefix-sum over the purchases sorted by date. Also
  the entry prices per purchase and the two-slice pie.
- **`History`**: the empty state, the newest-first sort done in place on the page's own array,
  the rows, the confirmed delete, and the CSV export.
- **`Overview`**: the profit percentage, the profit test, the holdings value, the `|| 0` average
  and the percentage badge.
- **`DateOrder`**: the ordering by date that the charts and the history use. Dates are
  ISO 8601 `YYYY-MM-DD` texts ordered by the number `YYYYMMDD`. The sort is a stable insertion
  sort. ECMA-262 (section 23.1.3.30) requires `Array.prototype.sort` to be stable, and
  `StableSortUnique` shows that a stable sort has only one possible result.
- **`JsNumbers`**: the JavaScript number semantics the code relies on, over exact reals.
  - A number can be NaN or ±Infinity after a division by zero.
  - `toFixed` follows ECMA-262, section 21.1.3.3: round half up on the magnitude, sign written
    first.
  - `toString` is the shortest exact decimal rendering.
  - `parseFloat` follows ECMA-262, section 19.2.4: leading white space, sign, digits, fraction,
    exponent; anything after the longest numeric prefix is ignored.

Amounts are exact `real`s. The clock-derived id, the fetched price and the answers to `prompt`
and `confirm` are parameters.

With a total capital of 0, `capitalPercentage` divides by 0 and is ±Infinity or NaN. The
low-capital alert therefore fires exactly when it is on and the remaining capital is negative
(`Alerts.LowCapitalWithoutCapital`).

The page keeps its list in an array rather than a sequence. The history sorts the array it is
given with `.sort`, which is the page's own state array. So rendering the history reorders the
page's list, and later exports and appends see that order (`Index.Store.RenderHistory`). Adding
and deleting build new arrays, as the spread and `filter` of the code do.

## Model

| member | source | states |
|---|---|---|
| Ledger.Sum | src/pages/Index.tsx:106-107 | The `reduce` total over one amount. It has no contract of its own: `SumAppend`, `SumConcat` and `SumPermutation` state that it grows by each appended record, splits over joined lists and does not depend on the order |
| Ledger.SumAppend | src/pages/Index.tsx:106-107 | A `reduce` sum over the list with one more record at the end grows by exactly that record's amount |
| Ledger.SumConcat | src/pages/Index.tsx:106-107 | The sum over two lists joined is the sum of their sums |
| Ledger.SumPermutation | src/pages/Index.tsx:106-107 | Two lists holding the same records (as multisets) have equal BTC and IDR totals, whatever their order |
| Ledger.SumPositive | src/components/PerformanceCharts.tsx:19-20 | A non-empty list of positive amounts has a positive total |
| Ledger.SumBetween | src/pages/Index.tsx:108-110 | When each purchase satisfies `lo·btc ≤ idr ≤ hi·btc`, the totals satisfy the same bounds |
| Ledger.RemoveId | src/pages/Index.tsx:97 | No record with the id remains, and the list never grows |
| Ledger.RemoveIdKeeps | src/pages/Index.tsx:97 | A record survives the filter exactly when it was in the list and its id differs |
| Ledger.RemoveIdConcat | src/pages/Index.tsx:97 | Filtering a joined list filters each part in place, so the surviving records keep their order |
| Ledger.RemoveAbsentId | src/pages/Index.tsx:97 | Deleting an id no record carries leaves the list unchanged |
| Ledger.AddThenDelete | src/pages/Index.tsx:83-97 | Appending a record under an unused id and then deleting that id gives back the original list |
| Ledger.Summarize | src/pages/Index.tsx:105-117 | The summary passes through the price and capital, and has `unrealizedPnL = totalBTC·price − totalSpent` and `remainingCapital = totalCapital − totalSpent` |
| Ledger.SummaryOfEmpty | src/pages/Index.tsx:106-114 | With no purchases, the totals, the average and the P&L are 0 and the remaining capital is the whole capital |
| Ledger.PnLWithoutPrice | src/pages/Index.tsx:117 | While the price is 0, the P&L is minus the total spent |
| Ledger.RemainingCapitalSign | src/pages/Index.tsx:114 | The remaining capital is not clamped: it is negative exactly when the total spent exceeds the capital |
| Ledger.AverageDefined | src/pages/Index.tsx:108-110 | With purchases that all have a positive BTC amount, the BTC total is positive and the average is the finite quotient total spent / total BTC |
| Ledger.AverageBetweenEntryPrices | src/pages/Index.tsx:108-110 | The average buy price lies between the lowest and highest price paid per BTC |
| Ledger.SummaryIgnoresOrder | src/pages/Index.tsx:105-117 | Reordering the list does not change the summary |
| Ledger.SummaryAfterAdd | src/pages/Index.tsx:88-117 | An appended purchase raises total BTC and total spent by its amounts and lowers the remaining capital by its IDR amount |
| Ledger.FormatBtc | src/pages/Index.tsx:128-130 | The text is the three-character prefix `â‚¿` followed by a numeral that starts with `-` exactly for a negative amount |
| Ledger.FormatBtcReadBack | src/pages/Index.tsx:128-130 | The numeral after the three-character prefix reads back as the amount rounded to eight decimals, within half a satoshi of it |
| DateOrder.SortByDate | src/components/PerformanceCharts.tsx:14 | The sorted list has the same records (multiset) and is ordered by the comparator's key |
| DateOrder.SortedDates | src/components/PerformanceCharts.tsx:14 | Ascending order gives non-decreasing dates; descending order gives non-increasing dates |
| DateOrder.SortStable | src/components/PerformanceCharts.tsx:14 | Records with the same date keep their relative order |
| DateOrder.StableSortUnique | src/components/TransactionHistory.tsx:73 | Any ordered rearrangement that keeps same-date records in order equals `SortByDate`, so every stable sort gives the same result |
| DateOrder.SortIdempotent | src/components/TransactionHistory.tsx:73 | Sorting an already sorted list changes nothing |
| Overview.ProfitPercentage | src/components/PortfolioOverview.tsx:14-16 | No contract of its own: `ProfitPercentageScaled` and `ProfitSignAgrees` state that with money spent it is P&L × 100 / spent, with the sign of the P&L |
| Overview.IsProfit | src/components/PortfolioOverview.tsx:18 | No contract of its own: break-even counts as profit; `BadgeSign` and `Charts.PieColourAgainstOverview` tie it to the `+` badge and the pie colour |
| Overview.HoldingsValue | src/components/PortfolioOverview.tsx:35 | No contract of its own: `PnLIsHoldingsLessSpent` states that the P&L is this value less the total spent |
| Overview.DisplayedAverage | src/components/PortfolioOverview.tsx:50 | `average \|\| 0` is never NaN; it is the average when that is truthy and 0 otherwise |
| Overview.ChangeBadge | src/components/PortfolioOverview.tsx:78 | The badge ends in `%` |
| Overview.BadgeFigure | src/components/PortfolioOverview.tsx:78 | Between the optional `+` and the closing `%`, the badge holds `toFixed(2)` of the percentage, which reads back as the percentage rounded to two decimals |
| Overview.ProfitPercentageScaled | src/components/PortfolioOverview.tsx:14-16 | With money spent, percentage × spent = P&L × 100 |
| Overview.ProfitSignAgrees | src/components/PortfolioOverview.tsx:14-18 | With money spent, the percentage is non-negative exactly for a profit and negative exactly for a loss |
| Overview.BadgeSign | src/components/PortfolioOverview.tsx:78 | The badge starts with `+` exactly when `isProfit`, and with `-` exactly for a loss on money spent |
| Overview.PnLIsHoldingsLessSpent | src/components/PortfolioOverview.tsx:35 | The P&L equals the holdings value less the total spent |
| Overview.DisplayedAverageOfSummary | src/components/PortfolioOverview.tsx:50 | The average card shows total spent / total BTC for a non-empty list of positive purchases, and 0 for no purchases |
| Alerts.OrElse | src/components/AlertsSystem.tsx:31-35 | `??` replaces only a missing value |
| Alerts.Restore | src/components/AlertsSystem.tsx:31-35 | Each restored setting is the saved one when present, otherwise its default |
| Alerts.RestoreSaved | src/components/AlertsSystem.tsx:41-47 | Restoring the saved settings object gives back the same settings, including a switched-off alert and a 0 target |
| Alerts.RestoreNothing | src/components/AlertsSystem.tsx:19-23 | An empty saved object restores the defaults: on, 20, on, 0, above |
| Alerts.Saved | src/components/AlertsSystem.tsx:40-47 | No contract of its own: `RestoreSaved` states that restoring the saved object gives back every setting |
| Alerts.CapitalPercentage | src/components/AlertsSystem.tsx:56 | Finite exactly when the total capital is not 0, and then percentage × total = remaining × 100; with a capital of 0 it is −Infinity exactly when the remaining capital is negative |
| Alerts.IsLowCapital | src/components/AlertsSystem.tsx:57 | No contract of its own: `LowCapitalOff`, `LowCapitalWithCapital` and `LowCapitalWithoutCapital` state when it fires |
| Alerts.IsPriceAlertTriggered | src/components/AlertsSystem.tsx:60-63 | No contract of its own: `PriceAlertOff` and `PriceAlertSides` state when it fires |
| Alerts.LowCapitalMessage | src/components/AlertsSystem.tsx:81 | No contract of its own: `LowCapitalMessageFigure` states the figure it shows |
| Alerts.LowCapitalOff | src/components/AlertsSystem.tsx:57 | With its toggle off, the low-capital alert never fires |
| Alerts.LowCapitalWithCapital | src/components/AlertsSystem.tsx:56-57 | With a positive capital, the alert fires exactly when remaining / total × 100 ≤ threshold (inclusive) |
| Alerts.LowCapitalWithoutCapital | src/components/AlertsSystem.tsx:56-57 | With a capital of 0, the alert fires exactly when it is on and the remaining capital is negative |
| Alerts.PriceAlertOff | src/components/AlertsSystem.tsx:60 | When disabled, or with a target that is not positive, the price alert never fires |
| Alerts.PriceAlertSides | src/components/AlertsSystem.tsx:61-62 | `above` fires exactly when price ≥ target, `below` exactly when price ≤ target; at the target both fire |
| Alerts.LowCapitalMessageFigure | src/components/AlertsSystem.tsx:81 | With a finite percentage, the warning shows it with one decimal, which reads back as the percentage rounded to a tenth |
| Alerts.AlertsPanel.constructor | src/components/AlertsSystem.tsx:19-23 | The panel starts with the default settings |
| Alerts.AlertsPanel.Load | src/components/AlertsSystem.tsx:27-37 | Loading a saved object sets every setting to its restored value |
| Alerts.AlertsPanel.SetLowCapitalAlert | src/components/AlertsSystem.tsx:104 | Only the low-capital toggle changes |
| Alerts.AlertsPanel.SetLowCapitalThreshold | src/components/AlertsSystem.tsx:114 | Only the threshold changes |
| Alerts.AlertsPanel.SetPriceAlerts | src/components/AlertsSystem.tsx:128 | Only the price-alert toggle changes |
| Alerts.AlertsPanel.SetTargetPrice | src/components/AlertsSystem.tsx:138 | Only the target price changes |
| Alerts.AlertsPanel.SetAlertDirection | src/components/AlertsSystem.tsx:145 | Only the direction changes |
| Alerts.AlertsPanel.Evaluate | src/components/AlertsSystem.tsx:56-63 | Both flags are exactly the alert predicates of the current settings and inputs; nothing is changed or recorded |
| Form.Toggled | src/components/TransactionForm.tsx:99 | The toggle always changes the mode |
| Form.ToggleTwice | src/components/TransactionForm.tsx:99 | Toggling twice gives back the original mode |
| Form.Message | src/components/TransactionForm.tsx:43-48 | No contract of its own: the alert text for each refusal, shown by `Form.EntryForm.HandleSubmit` |
| Form.MessagesDistinct | src/components/TransactionForm.tsx:43-48 | The two refusals show different alerts |
| Form.Submit | src/components/TransactionForm.tsx:36-58 | Rejected as invalid exactly when an amount does not parse to a positive number; rejected for capital exactly when both parse positive and the IDR amount exceeds the remaining capital; otherwise the entry carries the parsed amounts, the date and the notes as typed |
| Form.InvalidAmountIgnoresCapital | src/components/TransactionForm.tsx:42-50 | The amount check comes first: an invalid form is refused as invalid whatever the capital |
| Form.SpendingAllCapitalAccepted | src/components/TransactionForm.tsx:47-50 | Spending exactly the remaining capital is accepted |
| Form.AcceptanceMonotone | src/components/TransactionForm.tsx:47-50 | A form accepted against some capital is accepted with the same entry against any larger capital |
| Form.Calculate | src/components/TransactionForm.tsx:60-68 | Date and notes are kept; IDR mode leaves the IDR text and BTC mode the BTC text; nothing changes at price 0 or with an empty source field |
| Form.NaNTextRejected | src/components/TransactionForm.tsx:42 | The text `NaN` does not parse as a number |
| Form.CalculatedBtc | src/components/TransactionForm.tsx:61-63 | In IDR mode the BTC text reads back as IDR / price rounded to eight decimals, within half a satoshi of the exact quotient |
| Form.CalculatedIdr | src/components/TransactionForm.tsx:64-66 | In BTC mode the IDR text reads back exactly as BTC × price |
| Form.CalculatedFromGarbage | src/components/TransactionForm.tsx:60-66 | An unparsable source field writes `NaN` into the other field, and submitting then refuses the form as invalid |
| Form.CalculateIdempotent | src/components/TransactionForm.tsx:60-68 | Pressing the calculator twice gives the same fields as pressing it once |
| Form.CalculateThenSubmit | src/components/TransactionForm.tsx:36-68 | A calculated BTC amount followed by submit records the typed IDR amount and the rounded quotient |
| Form.EntryForm.constructor | src/components/TransactionForm.tsx:19-25 | The form starts dated today, with empty amounts and notes, in IDR mode |
| Form.EntryForm.ToggleMode | src/components/TransactionForm.tsx:99 | The mode flips and the fields stay |
| Form.EntryForm.HandleCalculation | src/components/TransactionForm.tsx:60-68 | The fields become `Calculate` of the old fields in the current mode; the mode stays |
| Form.EntryForm.SetDate | src/components/TransactionForm.tsx:87 | Only the date field changes |
| Form.EntryForm.SetIdrAmount | src/components/TransactionForm.tsx:116 | Only the IDR field changes |
| Form.EntryForm.SetBtcAmount | src/components/TransactionForm.tsx:143 | Only the BTC field changes |
| Form.EntryForm.SetNotes | src/components/TransactionForm.tsx:154 | Only the notes field changes |
| Form.EntryForm.HandleSubmit | src/components/TransactionForm.tsx:36-58 | The outcome is the submit decision on the current fields; an alert is shown exactly when the form is refused, with that refusal's message |
| Charts.PortfolioSeries | src/components/PerformanceCharts.tsx:14-30 | No contract of its own: `SeriesPoint`, `SeriesInDateOrder`, `SeriesIncreasing` and `SeriesEndsAtTotals` state what each point holds |
| Charts.Points | src/components/PerformanceCharts.tsx:17-30 | One point per purchase |
| Charts.RunningTotals | src/components/PerformanceCharts.tsx:17-30 | The per-point prefix sums (`slice` then `reduce`) form a running total: each point's BTC and IDR totals are the previous point's (zero before the first) plus its own purchase |
| Charts.SeriesPoint | src/components/PerformanceCharts.tsx:17-29 | Point i carries the i-th date in date order, the totals of the first i+1 sorted purchases, `currentValue = BTC·price` and `pnl = currentValue − spent` |
| Charts.SeriesInDateOrder | src/components/PerformanceCharts.tsx:14 | The points run oldest first |
| Charts.SeriesIncreasing | src/components/PerformanceCharts.tsx:18-20 | With positive amounts, cumulative BTC and cumulative spend strictly increase from point to point |
| Charts.SeriesEndsAtTotals | src/components/PerformanceCharts.tsx:19-20 | The last point holds the whole list's totals and P&L, as in the summary |
| Charts.EntryPriceData | src/components/PerformanceCharts.tsx:33-37 | One entry per purchase |
| Charts.EntryPrices | src/components/PerformanceCharts.tsx:33-37 | Every entry has the same current price, and the price paid is idr / btc of the i-th purchase in date order |
| Charts.PieData | src/components/PerformanceCharts.tsx:44-47 | Two slices: invested = total spent in orange, then value − spent; the two add up to the value; the second is green exactly when value > spent, red otherwise |
| Charts.PieMatchesSummary | src/components/PerformanceCharts.tsx:40-46 | The slices are the summary's total spent and unrealized P&L |
| Charts.PieColourAgainstOverview | src/components/PerformanceCharts.tsx:46 | The slice is green exactly when the overview shows a profit other than break-even |
| History.SplitJoin | src/components/TransactionHistory.tsx:48 | Splitting a `join` at its separator gives back the parts when none of them contains the separator |
| History.PricePerBtc | src/components/TransactionHistory.tsx:75 | The price per BTC is idr / btc when btc ≠ 0, and not finite when btc = 0 |
| History.CsvFields | src/components/TransactionHistory.tsx:41-47 | Each line has as many fields as the header |
| History.CsvRows | src/components/TransactionHistory.tsx:41-48 | Line i is the comma-joined fields of purchase i, in list order |
| History.CsvLines | src/components/TransactionHistory.tsx:38-48 | The header line and then one line per purchase |
| History.RowReadsBack | src/components/TransactionHistory.tsx:41-47 | With no comma in the date or note, a line splits into five fields: the date; BTC reading back rounded to 8 decimals; the IDR amount itself; idr / btc rounded to a whole number; and the note between quotes |
| History.ExportCsv | src/components/TransactionHistory.tsx:37-48 | No contract of its own: `ExportLines` and `ExportAfterRender` state the lines it splits into |
| History.ExportLines | src/components/TransactionHistory.tsx:38-48 | With no line feed in any date or note, the export splits into the header and one line per purchase, in list order |
| History.EscapeQuotes | src/components/TransactionHistory.tsx:46 | RFC 4180's doubling of quotes lengthens a text exactly when it contains a quote |
| History.NoteFieldAgainstRfc4180 | src/components/TransactionHistory.tsx:46 | The exported note field is the RFC 4180 quoted field exactly when the note holds no double quote |
| History.Row | src/components/TransactionHistory.tsx:75-99 | A row carries the purchase's id and date, its price per BTC and its `formatBTC` text; it shows the note exactly when the note is not empty, and then shows that note |
| History.Rows | src/components/TransactionHistory.tsx:73-76 | One row per purchase, with that purchase's id and date |
| History.Render | src/components/TransactionHistory.tsx:21-76 | An empty list gives the empty state and is left alone; otherwise the array becomes the newest-first sort of its old contents, and the rows follow that order |
| History.DeleteRequest | src/components/TransactionHistory.tsx:110-112 | A delete is requested exactly when confirmed, and for that row's id |
| History.RenderedOrder | src/components/TransactionHistory.tsx:73 | The rendered list holds the same purchases, with non-increasing dates |
| History.ExportAfterRender | src/components/TransactionHistory.tsx:41-73 | After a render, the export's lines after the header are the purchases newest first |
| Index.CapitalAfterPrompt | src/pages/Index.tsx:171-173 | A non-empty answer that parses becomes the capital; a cancelled, empty or unparsable answer leaves it |
| Index.PromptRejectsText | src/pages/Index.tsx:172 | The answer `abc` leaves the capital unchanged |
| Index.PromptDefaultKeepsCapital | src/pages/Index.tsx:171-173 | Accepting the prompt's default text (a whole capital) leaves the capital unchanged |
| Index.Store.Summary | src/pages/Index.tsx:105-117 | The summary's totals are the sums over the current list, and remaining = capital − spent |
| Index.Store.constructor | src/pages/Index.tsx:32-35 | No purchases, price 0, capital 100,000,000, form closed |
| Index.Store.ReceivePrice | src/pages/Index.tsx:45 | Only the price changes |
| Index.Store.OpenForm | src/pages/Index.tsx:161 | The form opens; nothing else changes |
| Index.Store.CancelForm | src/pages/Index.tsx:210 | The form closes; nothing else changes |
| Index.Store.AddTransaction | src/pages/Index.tsx:83-89 | A new list: the old one plus the stamped entry at the end; the form closes |
| Index.Store.DeleteTransaction | src/pages/Index.tsx:96-97 | A new list: the old one filtered by id |
| Index.Store.SetCapital | src/pages/Index.tsx:170-173 | The capital becomes `CapitalAfterPrompt` of the answer; nothing else changes |
| Index.Store.SubmitForm | src/pages/Index.tsx:207-213 | The form decides against the summary's remaining capital. An accepted entry is appended, lowers the remaining capital by its IDR amount and leaves it ≥ 0. A refused one changes nothing |
| Index.Store.RenderHistory | src/pages/Index.tsx:199-204 | The page's own list is sorted newest first in place, and the summary does not change |
| Index.AddThenDeleteRestores | src/pages/Index.tsx:83-117 | Adding under an unused id and then deleting that id restores the list and hence the summary |
| Index.DeleteUnknownId | src/pages/Index.tsx:97 | Deleting an unknown id leaves the summary unchanged |
| Index.AcceptedEntriesStayWithinCapital | src/pages/Index.tsx:212 | An entry accepted against the remaining capital keeps the total spent within the capital and strictly raises it |
| JsNumbers.Div | src/components/AlertsSystem.tsx:56 | Finite exactly for a non-zero divisor, and then quotient × divisor = dividend; a zero divisor gives +Infinity, −Infinity or NaN as the dividend is positive, negative or 0 |
| JsNumbers.DivByNonZero | src/pages/Index.tsx:109 | A division by a non-zero number is the finite quotient |
| JsNumbers.ToFixed | src/components/TransactionForm.tsx:63 | `toFixed` writes a non-empty numeral that starts with `-` exactly for a negative value |
| JsNumbers.ToFixedReadBack | src/components/TransactionHistory.tsx:43 | parseFloat reads `x.toFixed(f)` back as x rounded half-up to f decimals |
| JsNumbers.RoundedError | src/components/TransactionHistory.tsx:45 | Rounding to f decimals moves a value by at most half a unit in the last place |
| JsNumbers.SatoshiRounding | src/components/TransactionForm.tsx:63 | Rounding to eight decimals moves a value by at most 0.000000005 |
| JsNumbers.NumberToString | src/components/TransactionHistory.tsx:44 | No contract of its own: `NumberToStringReadBack`, `NumberToStringNatural` and `NumberToStringIsNumeral` state what it writes |
| JsNumbers.ParseFloat | src/components/TransactionForm.tsx:39-40 | No contract of its own: `ToFixedReadBack`, `NumberToStringReadBack`, `Form.NaNTextRejected` and `Index.PromptRejectsText` state what it reads |
| JsNumbers.NumberToStringReadBack | src/components/TransactionForm.tsx:66 | parseFloat reads `x.toString()` back as x, for x with at most 20 decimals |
| JsNumbers.NumberToStringNatural | src/components/TransactionHistory.tsx:44 | A whole number is written as its plain digits |
| JsNumbers.NumberToStringIsNumeral | src/components/TransactionHistory.tsx:44 | `toString` writes only digits, `.` and `-` |

## Left out

- Price fetching and its 60-second polling are network I/O and a timer. The price that arrives is the parameter of `Index.Store.ReceivePrice`; a failed fetch changes nothing.
- Loading and saving through `localStorage` is browser storage. For the alerts it is modelled as a value: `Alerts.Saved` builds the saved object and `Alerts.AlertsPanel.Load` restores one. The page's stored list and capital are not modelled.
- JSX rendering, the charts library, toasts, and the `alert`, `prompt` and `confirm` dialogs are UI. Their answers are parameters. The CSV download (Blob, object URL, anchor click) is I/O; only the CSV text is modelled.
- `Intl.NumberFormat` (`formatIDR`) and `toLocaleDateString` are locale formatting from the runtime and are not modelled. Rows keep the raw date, and prices are numbers, not rupiah texts.
- IEEE-754 doubles are not modelled: amounts are exact reals. No claim is made about rounding error in sums or quotients.
- `Date.now().toString()` ids depend on the clock and are not modelled. The id is a parameter, and the lemmas that need a fresh id require it to be unused.
- Date parsing is limited to well-formed `YYYY-MM-DD` texts, which the date input produces. Any other text gets the key 0, whereas the runtime gives NaN and an engine-dependent order. Invalid calendar days such as `2024-02-30` are not rejected.
- `toFixed` for values of 10^21 and above (written in exponent form by the runtime) is not modelled.
- `toString` is modelled as the shortest exact decimal, up to 20 decimals. Exponent forms and the IEEE shortest-round-trip digits are not modelled.
- `parseFloat` of `Infinity` is treated as not a number. The runtime accepts it.
- JsNumbers.NumberToStringReadBack: stated only for values with at most 20 decimals, because the model's `toString` stops there.
- Form.CalculatedIdr: requires BTC × price to have at most 20 decimals, for the same reason.
- History.RowReadsBack: the IDR field is read back only for amounts with at most 20 decimals, for the same reason. A date or note containing a comma is excluded, since it adds fields. A BTC amount of 0 is excluded too, since the price field is then `toFixed(0)` of an infinity or NaN; every entry the form accepts has a positive BTC amount.
- History.ExportLines: excludes dates and notes containing a line feed, since such a note adds lines to the export.
- Index.Store.SubmitForm and Form.Submit: the browser's constraint validation, which runs before the submit handler, is not modelled. The date, IDR and BTC inputs are `required` (src/components/TransactionForm.tsx:88, 117, 144). The BTC input only takes multiples of 0.00000001 (`step`, line 140) and the IDR input only whole numbers (the default step of 1). A number input also clears text such as `NaN`, which then fails `required`. The model therefore accepts forms the browser would block, such as an empty date or an IDR amount of 1000.5.
- Alerts.AlertsPanel.SetLowCapitalThreshold: takes the threshold as a number. The `Number(...)` conversion of the typed text is not modelled, so a NaN threshold is not either.
- Alerts.AlertsPanel.SetTargetPrice: takes the target as a number, for the same reason.
- The CSV uses LF line breaks, not the CRLF of RFC 4180 section 2 rule 1. The model writes LF, as the code does.
