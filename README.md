# Expense tracker: summaries, filters, exports and the record store

A Dafny model of the logic core of a browser expense tracker. Expenses are records with an id, a date string, an amount, one of six categories, a description and two timestamps. The model covers these parts:

- **Form check and summary** (`Helpers`).
  - The form check collects one message per failing field.
  - The summary computes the grand total, the current month's total, the per-category breakdown, the top category and the record count.
  - The CSV text builder writes amounts with `toString`.
  - The date formatter falls back to its input.
  - The colour and icon tables.
- **Export serialisers** (`ExportUtils`).
  - The CSV content, with amounts written by `toFixed(2)`.
  - The JSON export envelope.
  - The PDF report: heading lines, table rows and the page-footer loop over a mutable document.
- **List view** (`ExpenseList`).
  - The search, category and date-range filter.
  - The stable newest-first sort (`StableSort`).
- **Export dialog** (`ExportModal`).
  - The category-set and string date-range filter.
  - The category-toggle state machine, as a class.
  - The empty-export guard, the displayed total and the ten-row preview.
- **Charts** (`SpendingCharts`).
  - The pie slices: categories with a positive total.
  - The six-month bar series.
- **Dashboard** (`Dashboard`): the top-three ranking and the `'N/A'` label.
- **Record store** (`LocalStorage`): a class over one storage slot with get, save, add, update, delete and clear.

Shared modules:

- `Expenses`: categories, records, totals and the order-keeping `Filter`.
- `Money`: amounts as integer cents, their `toFixed(2)` and shortest decimal texts, and a parser back.
- `Dates`: a calendar date with an ISO parser and the formatters.
- `Text`: digits, lower-casing, trimming, joining and string order.
- `Csv`: a CSV writer and a reader, with a round-trip proof in the sense of section 2 of RFC 4180.

The clock, the ISO timestamp of an update, the PDF layout's page count and the formatted "generated" time are parameters.

## Model

| member | source | states |
|---|---|---|
| Helpers.ValidateExpenseForm | utils/helpers.ts:23-51 | every check runs; each field is in the error map exactly when its check fails (empty date, empty or non-positive amount, empty category, blank description), each with its message; valid exactly when the map is empty |
| Helpers.TrimmedEmpty | utils/helpers.ts:40 | `!description.trim()` holds exactly when every character is ECMAScript white space or a line terminator |
| Helpers.NaNAmountAccepted | utils/helpers.ts:35 | a non-empty amount that parses to NaN does not trigger the amount error |
| Helpers.WordIsNaN | utils/helpers.ts:35 | text that cannot start a number parses to NaN and passes the amount check |
| Helpers.MinusDigitsRejected | utils/helpers.ts:35 | a minus sign followed by digits parses to a number and is rejected |
| Helpers.TinyDecimalRejected | utils/helpers.ts:35 | a decimal such as `0.` and 400 zeros and a one parses to exactly 10^-401, rounds to a zero double, and is rejected |
| Helpers.SmallDecimalAccepted | utils/helpers.ts:35 | a decimal of 10^-268 or more parses to a positive double and passes the amount check |
| Helpers.ExponentUnderflowRejected | utils/helpers.ts:35 | `1e-k` parses its exponent, and for `k` of 359 or more it rounds to zero and is rejected |
| Helpers.LeadingSpaceIgnored | utils/helpers.ts:35 | white space in front of the amount (every ECMAScript white-space and line-terminator code point) changes neither what `parseFloat` reads nor the verdict |
| Helpers.SpaceMinusRejected | utils/helpers.ts:35 | a minus sign and digits are rejected whatever white space precedes them, an ideographic space included |
| Helpers.AccumulateBreakdown | utils/helpers.ts:71-82 | the `forEach` into a zeroed record yields, for each of the six categories, the sum of that category's amounts |
| Helpers.FindTopCategory | utils/helpers.ts:84-94 | the strict-`>` scan returns none when no total is positive, else a category with the maximal total, the earliest in declaration order on ties |
| Helpers.TopCategoryUnique | utils/helpers.ts:84-94 | that description of the top category admits exactly one answer |
| Helpers.CalculateSummary | utils/helpers.ts:53-103 | grand total, current-month total, breakdown, top category and count, each equal to its definition |
| Helpers.BreakdownSumsToTotal | utils/helpers.ts:58-82 | the six breakdown values add up to the grand total |
| Helpers.MonthlyAtMostTotal | utils/helpers.ts:54-69 | with non-negative amounts, the month's total lies between 0 and the grand total |
| Helpers.UnparseableNotInMonth | utils/helpers.ts:60-67 | a record whose date does not parse is never counted in the month |
| Helpers.FormatDateFallback | utils/helpers.ts:11-17 | an unparseable date comes back unchanged; a parseable one, in `yyyy-MM-dd`, is a 10-character dashed text naming the same month and day of the era year (year 0 is written as year 1), so from year 1 on it parses back to the same date |
| Helpers.FormatDateKeepsCanonical | utils/helpers.ts:11-17 | a 10-character ISO date is written unchanged, except that year `0000` becomes `0001`; unparseable text is written unchanged |
| Helpers.AmountReadsBack | utils/helpers.ts:110 | the amount text, in either format, parses back to the amount in cents |
| Helpers.AmountTextPlain | utils/helpers.ts:110 | the amount text never needs CSV quoting |
| Helpers.CsvRowWellFormed | utils/helpers.ts:107-112 | every row has four cells, and the unquoted cells hold no comma, quote or line break |
| Helpers.CsvTableWellFormed | utils/helpers.ts:105-117 | every row of the table, header included, has four cells, and every cell is well-formed |
| Helpers.HeaderLine | utils/helpers.ts:106-115 | the header line is `Date`, `Category`, `Amount`, `Description` joined by commas |
| Helpers.CsvTableRoundTrip | utils/helpers.ts:105-120 | reading the CSV text back gives the header and then, per record in order, the export date, the category name, an amount that reads back as the record's amount, and the description exactly (quotes doubled on write, undone on read) |
| Helpers.CsvTableTexts | utils/helpers.ts:107-112 | the table's cell texts are the header and each record's four fields, in input order |
| Helpers.ExportToCsvEmpty | utils/helpers.ts:114-119 | with no records the CSV is the header line alone, with no trailing newline |
| Helpers.CategoryTablesDistinct | utils/helpers.ts:138-162 | both tables are total, with non-empty entries, and no two categories share a colour or an icon |
| ExportUtils.FormatExportDateSpec | utils/exportUtils.ts:9-15 | an unparseable date comes back unchanged; a parseable one becomes `yyyy-MM-dd` text of the same month and day of its era year, so of the same date from year 1 on |
| ExportUtils.CsvContentRoundTrip | utils/exportUtils.ts:20-33 | reading the content back gives the header row, then one row per record in input order with its export date, category, amount text and description |
| ExportUtils.AmountColumn | utils/exportUtils.ts:26 | the amount cell has exactly two decimals after a point and reads back as the amount |
| ExportUtils.CsvContentEmpty | utils/exportUtils.ts:21-33 | with no records the content is the header line alone |
| ExportUtils.JsonEnvelope | utils/exportUtils.ts:42-55 | the envelope carries the records unchanged and in order, the clock's reading, their count and the sum of their amounts |
| ExportUtils.JsonEnvelopeEmpty | utils/exportUtils.ts:42-55 | no records give 0 records, a total of 0 and an empty list |
| ExportUtils.JsonEnvelopeAppend | utils/exportUtils.ts:44-45 | count and total are additive over concatenated inputs |
| ExportUtils.PdfRowSpec | utils/exportUtils.ts:82-87 | row i of the table is built from record i: its export date, its category, `$` followed by a point and exactly two digits at the end (the text reads back as the amount, zero included), and its description |
| ExportUtils.PdfTable | utils/exportUtils.ts:82-87 | one row per record |
| ExportUtils.ShownTotalIsTotal | utils/exportUtils.ts:78-87 | the amounts the rows show add up to the records' total |
| ExportUtils.HeadingTotalMatchesTable | utils/exportUtils.ts:78-79 | the "Total Amount" line reads back as the sum the table rows show |
| ExportUtils.FootersOncePerPage | utils/exportUtils.ts:115-126 | the footers name every page from 1 to N exactly once, in increasing page order |
| ExportUtils.FooterRoundTrip | utils/exportUtils.ts:121 | a footer text reads back as its page number and page count, so no two pages share one |
| ExportUtils.PdfDocument.constructor | utils/exportUtils.ts:65 | a new document has one page, no texts and no table |
| ExportUtils.PdfDocument.Text | utils/exportUtils.ts:70-79 | a text goes onto the current page; nothing else changes |
| ExportUtils.PdfDocument.SetPage | utils/exportUtils.ts:117 | the current page changes; nothing else does |
| ExportUtils.PdfDocument.AutoTable | utils/exportUtils.ts:89-112 | the table is recorded and the document spans the given page count |
| ExportUtils.PdfDocument.AddFooters | utils/exportUtils.ts:114-126 | the loop appends exactly the footers of pages 1 to N, in order, and changes nothing else |
| ExportUtils.ExportToPdf | utils/exportUtils.ts:64-130 | the document holds the four heading lines on page 1, the row table, and one footer per page |
| ExpenseList.FilteredExpenses | components/ExpenseList.tsx:21-46 | the result is a subsequence of the input holding exactly the records that match search, category and date range, each as many times as the input holds it |
| ExpenseList.NoFiltersKeepAll | components/ExpenseList.tsx:23-32 | with the initial filters every record is listed, in input order |
| ExpenseList.SearchIgnoresCase | components/ExpenseList.tsx:23-26 | the search does not depend on the query's letter case |
| ExpenseList.DescriptionPieceMatches | components/ExpenseList.tsx:25 | any substring of the description finds the record |
| ExpenseList.CategoryFilterSpec | components/ExpenseList.tsx:28-29 | `'All'` passes everything; otherwise exactly the chosen category passes |
| ExpenseList.UnparseableHiddenWhenBounded | components/ExpenseList.tsx:32-41 | with any bound set, a record whose date does not parse is hidden |
| ExpenseList.BoundsInclusive | components/ExpenseList.tsx:35-38 | a record dated on either end of a well-formed range is listed |
| ExpenseList.StartOnly | components/ExpenseList.tsx:35-38 | with only a start, a record is listed exactly when its date lies between the start and today |
| ExpenseList.EndOnly | components/ExpenseList.tsx:35-38 | with only an end, a record is listed exactly when its date lies between the epoch and the end |
| ExpenseList.DateKeys | components/ExpenseList.tsx:50 | a record has a sort key exactly when its date parses |
| ExpenseList.SortNewestFirstSpec | components/ExpenseList.tsx:48-52 | the sorted list is a permutation of its input; equal dates keep input order; when every date parses, no record comes after an older one |
| ExpenseList.VisibleAreTheMatches | components/ExpenseList.tsx:21-52 | the view shows exactly the matching records, each as often as the input has it |
| StableSort.SortOrder | components/ExpenseList.tsx:49-51 | the sort's position list is a permutation of the positions, stable on equal keys, and largest key first when every key is a number |
| StableSort.SortPermutes | components/ExpenseList.tsx:49-51 | applying the order permutes the input |
| StableSort.SortOrderIsPermutation | components/Dashboard.tsx:19 | every input position appears exactly once in the order |
| ExportModal.ModalFiltered | components/ExportModal.tsx:57-76 | a subsequence of the input, in input order, holding exactly the records whose category is selected (or `'All'` is) and whose date string lies inside the set bounds, each as many times as the input holds it |
| ExportModal.AllSelectedKeepsEverything | components/ExportModal.tsx:60-74 | with `'All'` and no dates the dialog exports everything in input order |
| ExportModal.ReversedRangeIsEmpty | components/ExportModal.tsx:67-72 | a start that sorts after the end leaves nothing |
| ExportModal.RangeOnlyNarrows | components/ExportModal.tsx:67-72 | removing the date bounds never drops a record |
| ExportModal.ToggleKeepsValid | components/ExportModal.tsx:78-99 | after any toggle the selection is non-empty, and `'All'` is in it only on its own |
| ExportModal.ToggleAllResets | components/ExportModal.tsx:81-83 | toggling `'All'` gives exactly `{'All'}` |
| ExportModal.TogglePickFlipsOnlyIt | components/ExportModal.tsx:84-96 | toggling a category flips only its membership; `'All'` is in the result exactly when that category was the only one selected |
| ExportModal.ToggleTwice | components/ExportModal.tsx:84-96 | toggling the same category twice restores a category selection, unless it was the last one |
| ExportModal.CategorySelection.constructor | components/ExportModal.tsx:50-52 | the dialog opens with `{'All'}` |
| ExportModal.CategorySelection.HandleToggle | components/ExportModal.tsx:78-99 | the in-place clear/add/delete steps compute the toggle and keep the selection valid |
| ExportModal.HandleExport | components/ExportModal.tsx:101-122 | an alert exactly when nothing is filtered; otherwise an export of exactly the filtered records, in the chosen format, to `filename.ext` |
| ExportModal.TotalAmountAtMostAll | components/ExportModal.tsx:146-148 | with non-negative amounts, the displayed total lies between 0 and the sum of all records |
| ExportModal.Preview | components/ExportModal.tsx:294 | at most ten rows, a prefix of the filtered list, and the whole list when it is that short |
| ExportModal.MoreNoteIffTruncated | components/ExportModal.tsx:315-319 | the "Showing 10 of N" note appears exactly when the preview leaves records out |
| SpendingCharts.ComputeCategoryData | components/SpendingCharts.tsx:36-57 | the accumulate-then-filter computation yields the pie data |
| SpendingCharts.CategoryDataValues | components/SpendingCharts.tsx:26-56 | each slice has a positive value equal to its category's total and the chart colour of its category |
| SpendingCharts.CategoryDataOrder | components/SpendingCharts.tsx:50-51 | slices come in declaration order, so no category has two |
| SpendingCharts.CategoryDataComplete | components/SpendingCharts.tsx:50-51 | a category has a slice exactly when its total is positive |
| SpendingCharts.SlicesSumToTotal | components/SpendingCharts.tsx:46-56 | with non-negative amounts the slices add up to the grand total |
| SpendingCharts.MonthStart | components/SpendingCharts.tsx:62-67 | the k-th month starts five months before the current one plus k, on day 1, by integer month arithmetic |
| SpendingCharts.MonthsConsecutive | components/SpendingCharts.tsx:62-67 | the six months are consecutive, oldest first, and the last one is the month of now, with its `MMM yyyy` label |
| SpendingCharts.MonthlyData | components/SpendingCharts.tsx:59-83 | empty exactly for no records, else six bars; every date must parse |
| SpendingCharts.YearMonthKey | components/SpendingCharts.tsx:70-73 | two dates have the same `yyyy-MM` key exactly when they share the month and the era year; for years from 1 on, exactly when they share year and month |
| SpendingCharts.InMonthSpec | components/SpendingCharts.tsx:71-74 | a record counts in bar k exactly when its date has bar k's month and era year; when both years are from 1 on, exactly when it has bar k's year and month |
| SpendingCharts.YearOneInYearZeroBar | components/SpendingCharts.tsx:62-73 | with the clock in March of year 1, the oldest bar is October of year 0, and a record dated `0001-10-05` is counted in it |
| SpendingCharts.AtMostOneMonth | components/SpendingCharts.tsx:71-74 | no record counts in two bars |
| SpendingCharts.EmptyMonthIsZero | components/SpendingCharts.tsx:76 | a month with no records shows 0 |
| SpendingCharts.MonthlyDataAtMostTotal | components/SpendingCharts.tsx:71-76 | with non-negative amounts the six bars together lie between 0 and the grand total |
| Dashboard.RankedEntriesSpec | components/Dashboard.tsx:18-19 | the ranking lists each category once with its total, larger amounts first, ties in declaration order |
| Dashboard.TopCategoriesBounds | components/Dashboard.tsx:20-21 | at most three entries, each positive and equal to its category's total |
| Dashboard.TopCategoriesOrder | components/Dashboard.tsx:19-21 | entries in non-increasing amount order, ties in declaration order |
| Dashboard.TopCategoriesAreLargest | components/Dashboard.tsx:19-21 | a positive category left off ranks below every listed one, and then three are listed |
| Dashboard.TopCategoriesStartWithTop | components/Dashboard.tsx:17-22 | the list is empty exactly when the summary has no top category, and otherwise starts with it |
| Dashboard.TopCategoryLabel | components/Dashboard.tsx:53 | the card shows `'N/A'` exactly when there is no top category, and otherwise the top category's name |
| LocalStorage.ExpenseStore.GetExpenses | utils/localStorage.ts:6-16 | the stored list, or `[]` with no window, nothing stored or unparseable text |
| LocalStorage.ExpenseStore.SaveExpenses | utils/localStorage.ts:18-26 | the slot holds the list when a write goes through, and keeps its value when there is no window or the write throws |
| LocalStorage.ExpenseStore.AddExpense | utils/localStorage.ts:28-33 | returns the record followed by the previous list, and stores that same list when writable |
| LocalStorage.ExpenseStore.UpdateExpense | utils/localStorage.ts:35-44 | returns the merged list and stores it when writable |
| LocalStorage.ExpenseStore.DeleteExpense | utils/localStorage.ts:46-51 | returns the list without that id and stores it when writable |
| LocalStorage.ExpenseStore.ClearAll | utils/localStorage.ts:53-61 | the slot is emptied when there is a window; a read then gives `[]` |
| LocalStorage.UpdateKeepsOthers | utils/localStorage.ts:37-41 | an update keeps length and order and leaves other ids untouched |
| LocalStorage.UpdateMergesMatch | utils/localStorage.ts:37-41 | a matching record takes each supplied field (`id` and `createdAt` included), keeps each unsupplied one, and gets the new `updatedAt` |
| LocalStorage.UpdateUnknownIdIsNoOp | utils/localStorage.ts:37-41 | updating an id no record has changes nothing |
| LocalStorage.DeleteRemovesExactly | utils/localStorage.ts:48 | a delete removes exactly the records with that id and keeps the rest in order |
| LocalStorage.DeleteIdempotent | utils/localStorage.ts:48 | deleting the same id twice equals deleting it once |
| LocalStorage.DeleteUnknownIdIsNoOp | utils/localStorage.ts:48 | deleting an id no record has changes nothing |
| LocalStorage.AddThenGet | utils/localStorage.ts:28-33 | with a working store, what was added is read back first |
| LocalStorage.FailedAddKeepsStore | utils/localStorage.ts:18-33 | a failed write is swallowed: the caller gets the new list, the store keeps the old one |
| LocalStorage.ClearThenGet | utils/localStorage.ts:53-61 | after clearing, a read gives `[]` |
| Money.ToFixed2RoundTrip | utils/exportUtils.ts:26 | the `toFixed(2)` text of an amount reads back as that amount |
| Money.NumberToStringRoundTrip | utils/helpers.ts:110 | the shortest decimal text of an amount reads back as that amount |
| Dates.FormatYmdRoundTrip | utils/exportUtils.ts:11 | the `yyyy-MM-dd` text of a valid date parses back to the same month and day of its era year, so to the date itself from year 1 on |
| Dates.YearZeroLeapDayLost | utils/exportUtils.ts:11 | February 29 of year 0 is written as a day of year 1, which does not parse |
| Dates.CanonicalDateUnchanged | utils/helpers.ts:13 | reformatting a `YYYY-MM-DD` text gives it back, except that year `0000` becomes `0001` |
| Expenses.FilterCounts | components/ExpenseList.tsx:21-46 | the filter keeps every copy of an element that passes and none of one that does not |
| Csv.DocumentRoundTrip | utils/exportUtils.ts:27-33 | reading a written table of well-formed cells gives back every cell text, row by row |
| Csv.QuotedFieldRoundTrip | utils/exportUtils.ts:27 | a quoted field with doubled quotes reads back as the original text |

## Left out

- **Time zones and clocks.**
  - Dates are calendar dates; time zones and the time of day are not modelled.
  - The clock is a parameter (`now`, `today`, an ISO text, a formatted text).
- **Years before 1.** The parser reads years 0000 to 9999. Every `yyyy` pattern writes the year of the era, so year 0 is written as year 1. The model does this too: a year-0 date does not read back to itself, and year-0 and year-1 dates share their month keys. Negative years are out of the parser's reach.
- **Date parsing.** The parser accepts `yyyy`, `yyyy-MM` and `yyyy-MM-dd`. The further ISO forms `parseISO` takes (week dates, ordinal dates, times) are not modelled.
- **Date range with swapped bounds.** In the list view, a range whose end is before its start is modelled as matching nothing. This is the throwing `isWithinInterval` of date-fns 2; later versions swap the bounds. No lemma depends on it.
- **Sort comparator.**
  - An unparseable date gives the comparator NaN. The model treats such a record as tied with every other record.
  - The engine's actual order among NaN results is not modelled.
- ExpenseList.DateKeys: the sort key reads a date by the `parseISO` rules (`yyyy`, `yyyy-MM`, `yyyy-MM-dd`, real days only). `new Date(string)` is engine-dependent and is not modelled: V8 rolls an impossible day such as `2023-02-30` over to 2 March and sorts it there, where the model gives it no key, and engines read other text by heuristics.
- **Floating point.**
  - Amounts are integer cents.
  - `toFixed(2)` and `toString` are modelled on cents; `toFixed` for magnitudes of 10^21 and more is not.
  - `parseFloat` is modelled as the exact decimal it reads (digits, point, exponent, `Infinity`), before it is rounded to a double. Only the comparison with 0 rounds, and it does so exactly: a decimal of at most 2^-1075 rounds to zero, as in round-to-nearest-even. Other roundings are not computed.
- Helpers.ValidateExpenseForm: the rounding follows V8, which rounds correctly. ECMAScript also allows an engine to cut a decimal to 20 significant digits first. That can change the result only for a decimal within a relative 10^-19 of 2^-1075, and that case is not modelled.
- **Currency and percentages.** `formatCurrency` (`Intl.NumberFormat`) and the dashboard's percentage text are not part of this model.
- **Categories.** A record always has one of the six categories. A stored record with another category string, or stored JSON that is not an array (such as `null`), is not modelled.
- **Case folding.** `toLowerCase` is modelled on ASCII letters only.
- **String order.** JavaScript compares strings by UTF-16 code units; `LexLess` compares code points. The two differ only when a character outside the Basic Multilingual Plane is compared with one from U+E000 to U+FFFF. The export dialog's date bounds are compared this way.
- **Browser output and side effects.**
  - `downloadFile`, `downloadCSV`, the empty-export `alert`, `setTimeout` and the modal's close and reset are represented only by the action value `HandleExport` returns.
  - The `catch` branch of the export handler, with its "Failed to export data" alert, is not modelled: the modelled exporters always produce their content, and the browser calls that could throw are not part of this model.
  - `console.error` logging is not modelled.
- **PDF and JSON layout.**
  - jsPDF drawing (fonts, positions, colours) is not modelled.
  - The page count of the table layout is an input.
  - `JSON.stringify`'s text layout is not modelled; the envelope is a value.
- **Icons.** The icons are the emoji the form uses; the helpers file's text shows them garbled.
- **Ids and timestamps.** `generateId`, and the source of `createdAt` and `updatedAt`, are not part of this model.
- SpendingCharts.MonthStart: needs a clock reading from year 1 on (`ValidNow`); earlier years are not modelled.
- SpendingCharts.MonthlyData: formatting an unparseable record date throws in the source. The model makes "every date parses" a precondition instead of modelling the crash.
- Helpers.CsvTableRoundTrip: the round trip is proved only for record dates that parse or hold no comma, quote or line break (`CsvSafeDate`). The source writes other dates unquoted, so such a row does not read back.
- ExportUtils.CsvContentRoundTrip: the same restriction to `CsvSafeDate` dates.
- **Non-numeric amounts.** The only message for the amount is "Amount must be greater than 0", but the check rejects only an empty amount or one that parses to a number ≤ 0. An amount that parses to NaN therefore passes. The model follows the code (`Helpers.NaNAmountAccepted`).
