/**
 * The list view's two derived lists: the records that pass the search,
 * category and date-range filters, in input order, and those records
 * sorted by date, newest first, records with equal dates keeping their
 * input order. "Today" is a parameter.
 */
module ExpenseList {
  import opened Wrappers
  import opened Text
  import opened Dates
  import opened Expenses
  import opened StableSort

  /** The category drop-down: `'All'` or one category. */
  datatype CategoryFilter = AnyCategory | OnlyCategory(category: Category)

  /** The four filter inputs of the list view; empty strings mean "not set". */
  datatype Filters = Filters(query: string, category: CategoryFilter, startDate: string, endDate: string)

  /** The view's initial state. */
  const NoFilters: Filters := Filters("", AnyCategory, "", "")

  /** `new Date(0)`, the start when only an end date is given. */
  const Epoch: Date := Date(1970, 1, 1)

  /** Case-insensitive substring search in the description or the category name. */
  predicate MatchesSearch(e: Expense, query: string)
  {
    query == []
    || Contains(ToLower(e.description), ToLower(query))
    || Contains(ToLower(CategoryName(e.category)), ToLower(query))
  }

  predicate MatchesCategory(e: Expense, f: CategoryFilter)
  {
    f.AnyCategory? || e.category == f.category
  }

  /**
   * The date check, only when a bound is set: `isWithinInterval` with the
   * missing start read as the epoch and the missing end as today. A bound
   * that does not parse, or an end before the start, makes date-fns throw,
   * and the caught error counts as no match; so does an unparseable record
   * date.
   */
  predicate MatchesDateRange(e: Expense, startDate: string, endDate: string, today: Date)
  {
    if startDate == [] && endDate == [] then true
    else
      var start := if startDate != [] then ParseIso(startDate) else Some(Epoch);
      var end := if endDate != [] then ParseIso(endDate) else Some(today);
      var date := ParseIso(e.date);
      && start.Some? && end.Some? && DateKey(start.value) <= DateKey(end.value)
      && date.Some? && DateKey(start.value) <= DateKey(date.value) <= DateKey(end.value)
  }

  predicate Matches(e: Expense, f: Filters, today: Date)
  {
    MatchesSearch(e, f.query) && MatchesCategory(e, f.category) && MatchesDateRange(e, f.startDate, f.endDate, today)
  }

  /** `filteredExpenses`: exactly the matching records, in input order. */
  function FilteredExpenses(expenses: seq<Expense>, f: Filters, today: Date): (r: seq<Expense>)
    ensures IsSubsequence(r, expenses)
    ensures forall i :: 0 <= i < |r| ==> Matches(r[i], f, today)
    ensures forall i :: 0 <= i < |expenses| && Matches(expenses[i], f, today) ==> expenses[i] in r
    ensures forall e :: multiset(r)[e] == if Matches(e, f, today) then multiset(expenses)[e] else 0
  {
    FilterCounts(expenses, e => Matches(e, f, today));
    Filter(expenses, e => Matches(e, f, today))
  }

  /** With the initial filters every record is listed, in input order. */
  lemma NoFiltersKeepAll(expenses: seq<Expense>, today: Date)
    ensures FilteredExpenses(expenses, NoFilters, today) == expenses
  {
    FilterAllPass(expenses, e => Matches(e, NoFilters, today));
  }

  /** The search does not see the case of the query. */
  lemma SearchIgnoresCase(e: Expense, query: string)
    ensures MatchesSearch(e, query) <==> MatchesSearch(e, ToLower(query))
  {
    ToLowerIdempotent(query);
  }

  /** Any piece of the description, in any case, finds the record. */
  lemma DescriptionPieceMatches(e: Expense, i: nat, j: nat)
    requires i <= j <= |e.description|
    ensures MatchesSearch(e, e.description[i..j])
  {
    var q := e.description[i..j];
    if q != [] {
      ToLowerSlice(e.description, i, j);
      ToLowerIdempotent(q);
      assert OccursAt(ToLower(e.description), ToLower(q), i);
    }
  }

  /** The category filter passes everything for `'All'` and otherwise exactly that category. */
  lemma CategoryFilterSpec(e: Expense, f: CategoryFilter)
    ensures f == AnyCategory ==> MatchesCategory(e, f)
    ensures f.OnlyCategory? ==> (MatchesCategory(e, f) <==> e.category == f.category)
  {
  }

  /** Once a bound is set, a record whose date does not parse is hidden. */
  lemma UnparseableHiddenWhenBounded(e: Expense, f: Filters, today: Date)
    requires f.startDate != [] || f.endDate != []
    requires ParseIso(e.date).None?
    ensures !Matches(e, f, today)
  {
  }

  /** Both ends of a well-formed range are inclusive. */
  lemma BoundsInclusive(e: Expense, startDate: string, endDate: string, today: Date)
    requires ParseIso(startDate).Some? && ParseIso(endDate).Some?
    requires DateKey(ParseIso(startDate).value) <= DateKey(ParseIso(endDate).value)
    requires ParseIso(e.date) == ParseIso(startDate) || ParseIso(e.date) == ParseIso(endDate)
    ensures MatchesDateRange(e, startDate, endDate, today)
  {
  }

  /** With only a start date, a record is listed when its date lies between the start and today. */
  lemma StartOnly(e: Expense, startDate: string, today: Date)
    requires startDate != [] && ParseIso(startDate).Some? && ParseIso(e.date).Some?
    ensures MatchesDateRange(e, startDate, "", today)
      <==> DateKey(ParseIso(startDate).value) <= DateKey(ParseIso(e.date).value) <= DateKey(today)
  {
  }

  /** With only an end date, a record is listed when its date lies between the epoch and the end. */
  lemma EndOnly(e: Expense, endDate: string, today: Date)
    requires endDate != [] && ParseIso(endDate).Some? && ParseIso(e.date).Some?
    ensures MatchesDateRange(e, "", endDate, today)
      <==> DateKey(Epoch) <= DateKey(ParseIso(e.date).value) <= DateKey(ParseIso(endDate).value)
  {
  }

  // ---- sortedExpenses ----

  /**
   * What the comparator sees of each record: its date as a number, or
   * `None` for NaN. `new Date(string)` is read by the rules of `ParseIso`.
   */
  function DateKeys(expenses: seq<Expense>): (keys: seq<Option<int>>)
    ensures |keys| == |expenses|
    ensures forall i :: 0 <= i < |expenses| ==> (keys[i].Some? <==> ParseIso(expenses[i].date).Some?)
  {
    seq(|expenses|, i requires 0 <= i < |expenses| =>
      match ParseIso(expenses[i].date)
      case Some(d) => Some(DateKey(d))
      case None => None)
  }

  /** `[...list].sort((a, b) => time(b) - time(a))`. */
  function SortNewestFirst(expenses: seq<Expense>): (r: seq<Expense>)
    ensures |r| == |expenses|
  {
    Apply(expenses, SortOrder(DateKeys(expenses)))
  }

  predicate AllDatesParse(expenses: seq<Expense>)
  {
    forall i :: 0 <= i < |expenses| ==> ParseIso(expenses[i].date).Some?
  }

  /**
   * The sorted list is a permutation of its input; records with equal
   * dates keep their input order; and when every date parses, no record
   * is listed after one with an earlier date.
   */
  lemma SortNewestFirstSpec(expenses: seq<Expense>)
    ensures multiset(SortNewestFirst(expenses)) == multiset(expenses)
    ensures var keys, perm := DateKeys(expenses), SortOrder(DateKeys(expenses));
      && SortNewestFirst(expenses) == Apply(expenses, perm)
      && forall p, q :: 0 <= p < q < |perm| && keys[perm[p]] == keys[perm[q]] ==> perm[p] < perm[q]
    ensures AllDatesParse(expenses) ==>
      var r := SortNewestFirst(expenses);
      forall p, q :: 0 <= p < q < |r| ==>
        ParseIso(r[p].date).Some? && ParseIso(r[q].date).Some?
        && DateKey(ParseIso(r[q].date).value) <= DateKey(ParseIso(r[p].date).value)
  {
    var keys := DateKeys(expenses);
    var perm := SortOrder(keys);
    SortPermutes(expenses, keys);
    if AllDatesParse(expenses) {
      var r := SortNewestFirst(expenses);
      assert AllKeysFrom(keys, 0);
      forall p, q | 0 <= p < q < |r|
        ensures ParseIso(r[p].date).Some? && ParseIso(r[q].date).Some?
        ensures DateKey(ParseIso(r[q].date).value) <= DateKey(ParseIso(r[p].date).value)
      {
        assert r[p] == expenses[perm[p]] && r[q] == expenses[perm[q]];
        assert !Precedes(keys[perm[q]], keys[perm[p]]);
      }
    }
  }

  /** `sortedExpenses`: the filtered records, newest first. */
  function VisibleExpenses(expenses: seq<Expense>, f: Filters, today: Date): seq<Expense>
  {
    SortNewestFirst(FilteredExpenses(expenses, f, today))
  }

  /** The view lists exactly the matching records, each as often as the input has it. */
  lemma VisibleAreTheMatches(expenses: seq<Expense>, f: Filters, today: Date)
    ensures multiset(VisibleExpenses(expenses, f, today)) == multiset(FilteredExpenses(expenses, f, today))
    ensures forall e :: e in VisibleExpenses(expenses, f, today) ==> e in expenses && Matches(e, f, today)
    ensures forall e :: multiset(VisibleExpenses(expenses, f, today))[e]
                     == if Matches(e, f, today) then multiset(expenses)[e] else 0
  {
    var filtered := FilteredExpenses(expenses, f, today);
    SortNewestFirstSpec(filtered);
    forall e | e in VisibleExpenses(expenses, f, today) ensures e in expenses && Matches(e, f, today) {
      assert e in multiset(filtered);
      var i :| 0 <= i < |filtered| && filtered[i] == e;
    }
  }
}
