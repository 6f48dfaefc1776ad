/**
 * The export dialog: which records it exports (a category selection and a
 * string date range, input order kept), the category-toggle state machine,
 * the guard against exporting nothing, the displayed total, and the
 * ten-row preview.
 */
module ExportModal {
  import opened Text
  import opened Expenses

  /** An entry of the dialog's category list: `'All'` or a category. */
  datatype Choice = All | Pick(category: Category)

  /** The selection is never empty, and `'All'` is in it only on its own. */
  predicate SelectionValid(s: set<Choice>)
  {
    s != {} && (All in s ==> s == {All})
  }

  // ---- filteredExpenses ----

  /**
   * The dialog's filter: the category must be selected unless `'All'` is,
   * and the date string must not sort before a set start nor after a set
   * end (plain string comparison, both ends inclusive).
   */
  predicate Keeps(e: Expense, selected: set<Choice>, startDate: string, endDate: string)
  {
    && (All in selected || Pick(e.category) in selected)
    && !(startDate != [] && LexLess(e.date, startDate))
    && !(endDate != [] && LexLess(endDate, e.date))
  }

  function ModalFiltered(expenses: seq<Expense>, selected: set<Choice>, startDate: string, endDate: string): (r: seq<Expense>)
    ensures IsSubsequence(r, expenses)
    ensures forall i :: 0 <= i < |r| ==> Keeps(r[i], selected, startDate, endDate)
    ensures forall i :: 0 <= i < |expenses| && Keeps(expenses[i], selected, startDate, endDate) ==> expenses[i] in r
    ensures forall e :: multiset(r)[e] == if Keeps(e, selected, startDate, endDate) then multiset(expenses)[e] else 0
  {
    FilterCounts(expenses, e => Keeps(e, selected, startDate, endDate));
    Filter(expenses, e => Keeps(e, selected, startDate, endDate))
  }

  /** With `'All'` selected and no dates set, the dialog exports every record in input order. */
  lemma AllSelectedKeepsEverything(expenses: seq<Expense>)
    ensures ModalFiltered(expenses, {All}, "", "") == expenses
  {
    FilterAllPass(expenses, e => Keeps(e, {All}, "", ""));
  }

  /** A start that sorts after the end leaves nothing to export. */
  lemma ReversedRangeIsEmpty(expenses: seq<Expense>, selected: set<Choice>, startDate: string, endDate: string)
    requires startDate != [] && endDate != [] && LexLess(endDate, startDate)
    ensures ModalFiltered(expenses, selected, startDate, endDate) == []
  {
    forall i | 0 <= i < |expenses| ensures !Keeps(expenses[i], selected, startDate, endDate) {
      var d := expenses[i].date;
      LexLessTotal(d, startDate);
      if d == startDate {
        LexLessIrreflexive(d);
      } else if LexLess(startDate, d) {
        LexLessTransitive(endDate, startDate, d);
      }
    }
    FilterNonePass(expenses, e => Keeps(e, selected, startDate, endDate));
  }

  /** The date range only narrows: a record kept under a range is kept with the range removed. */
  lemma RangeOnlyNarrows(e: Expense, selected: set<Choice>, startDate: string, endDate: string)
    requires Keeps(e, selected, startDate, endDate)
    ensures Keeps(e, selected, "", "")
  {
  }

  // ---- handleCategoryToggle ----

  /** What `handleCategoryToggle(choice)` makes of the selection `s`. */
  function Toggle(s: set<Choice>, choice: Choice): set<Choice>
  {
    if choice == All then {All}
    else
      var rest := s - {All};
      var flipped := if choice in rest then rest - {choice} else rest + {choice};
      if flipped == {} then {All} else flipped
  }

  /** Whatever the selection was, a toggle leaves it valid. */
  lemma ToggleKeepsValid(s: set<Choice>, choice: Choice)
    ensures SelectionValid(Toggle(s, choice))
  {
  }

  /** Toggling `'All'` makes the selection exactly `'All'`. */
  lemma ToggleAllResets(s: set<Choice>)
    ensures Toggle(s, All) == {All}
  {
  }

  /**
   * Toggling a category flips that category's membership and no other
   * category's; `'All'` is in the result exactly when the category was the
   * only thing selected besides `'All'`.
   */
  lemma TogglePickFlipsOnlyIt(s: set<Choice>, c: Category, d: Category)
    ensures Pick(c) in Toggle(s, Pick(c)) <==> Pick(c) !in s
    ensures d != c ==> (Pick(d) in Toggle(s, Pick(c)) <==> Pick(d) in s)
    ensures All in Toggle(s, Pick(c)) <==> s - {All} == {Pick(c)}
  {
    var rest := s - {All};
    if Pick(c) in rest && rest - {Pick(c)} == {} {
      assert rest == {Pick(c)};
    }
  }

  /** From a valid selection of categories, toggling the same category twice restores it, unless it was the last one. */
  lemma ToggleTwice(s: set<Choice>, c: Category)
    requires SelectionValid(s) && All !in s && s != {Pick(c)}
    ensures Toggle(Toggle(s, Pick(c)), Pick(c)) == s
  {
    var once := Toggle(s, Pick(c));
    if Pick(c) in s {
      assert s - {Pick(c)} != {} by {
        var x :| x in s && x != Pick(c);
      }
      assert once == s - {Pick(c)};
    } else {
      assert once == s + {Pick(c)};
    }
    assert once - {All} == once;
  }

  /** The dialog's selection state, updated in place by each toggle. */
  class CategorySelection {
    var selected: set<Choice>

    /** The dialog opens (and resets) with `'All'` selected. */
    constructor ()
      ensures selected == {All} && SelectionValid(selected)
    {
      selected := {All};
    }

    /** `handleCategoryToggle`: clear/add for `'All'`, else delete `'All'`, flip the category, fall back to `'All'`. */
    method HandleToggle(choice: Choice)
      modifies this
      ensures selected == Toggle(old(selected), choice)
      ensures SelectionValid(selected)
    {
      var next := selected;
      if choice == All {
        next := {};
        next := next + {All};
      } else {
        next := next - {All};
        if choice in next {
          next := next - {choice};
        } else {
          next := next + {choice};
        }
        if |next| == 0 {
          next := next + {All};
        }
      }
      selected := next;
      ToggleKeepsValid(old(selected), choice);
    }
  }

  // ---- handleExport, totalAmount and the preview ----

  datatype ExportFormat = CsvFormat | JsonFormat | PdfFormat

  function Extension(f: ExportFormat): string
  {
    match f
    case CsvFormat => "csv"
    case JsonFormat => "json"
    case PdfFormat => "pdf"
  }

  /** What pressing Export does: an alert, or an export of these records to this file. */
  datatype ExportAction =
    | Alert(message: string)
    | Export(format: ExportFormat, filename: string, records: seq<Expense>)

  function HandleExport(filtered: seq<Expense>, format: ExportFormat, filename: string): (a: ExportAction)
    ensures a.Alert? <==> filtered == []
    ensures a.Export? ==> a.records == filtered && a.format == format
                          && a.filename == filename + "." + Extension(format)
  {
    if |filtered| == 0 then Alert("No expenses to export with current filters")
    else Export(format, filename + "." + Extension(format), filtered)
  }

  /** The total shown in the dialog: the sum of what would be exported, never more than the sum of all records. */
  function TotalAmount(filtered: seq<Expense>): int
  {
    Total(filtered)
  }

  lemma TotalAmountAtMostAll(expenses: seq<Expense>, selected: set<Choice>, startDate: string, endDate: string)
    requires NonNegativeAmounts(expenses)
    ensures 0 <= TotalAmount(ModalFiltered(expenses, selected, startDate, endDate)) <= Total(expenses)
  {
    TotalFilterAtMost(expenses, e => Keeps(e, selected, startDate, endDate));
  }

  const PreviewRows: nat := 10

  /** `filteredExpenses.slice(0, 10)`. */
  function Preview(filtered: seq<Expense>): (p: seq<Expense>)
    ensures |p| <= PreviewRows && p <= filtered
    ensures |filtered| <= PreviewRows ==> p == filtered
  {
    if |filtered| <= PreviewRows then filtered else filtered[..PreviewRows]
  }

  /** Whether the "Showing 10 of N records" note is shown. */
  predicate ShowsMoreNote(filtered: seq<Expense>)
  {
    |filtered| > PreviewRows
  }

  /** The note appears exactly when the preview leaves records out. */
  lemma MoreNoteIffTruncated(filtered: seq<Expense>)
    ensures ShowsMoreNote(filtered) <==> |Preview(filtered)| < |filtered|
    ensures ShowsMoreNote(filtered) ==> |Preview(filtered)| == PreviewRows
  {
  }
}
