/**
 * The two chart series of the spending charts: the pie slices (one per
 * category with a positive total, in declaration order, with the chart's
 * colour) and the bar series of the last six calendar months, oldest
 * first. The clock's reading is a parameter.
 */
module SpendingCharts {
  import opened Wrappers
  import opened Text
  import opened Dates
  import opened Expenses
  import Helpers
  import ExpenseList

  // ---- categoryData ----

  /** One pie slice: the category, its total and its fill colour. */
  datatype Slice = Slice(name: Category, value: int, color: string)

  /** The chart's own colour table (not the one the list badges use). */
  function ChartColor(c: Category): string
  {
    match c
    case Food => "#10b981"
    case Transportation => "#3b82f6"
    case Entertainment => "#8b5cf6"
    case Shopping => "#ec4899"
    case Bills => "#ef4444"
    case Other => "#6b7280"
  }

  /** `Object.entries(breakdown)` mapped to slices: all six categories in declaration order. */
  function Entries(b: map<Category, int>): (r: seq<Slice>)
    requires forall c :: c in b
    ensures |r| == |AllCategories|
    ensures forall i :: 0 <= i < |r| ==> r[i].name == AllCategories[i]
  {
    seq(|AllCategories|, i requires 0 <= i < |AllCategories| =>
      Slice(AllCategories[i], b[AllCategories[i]], ChartColor(AllCategories[i])))
  }

  /** The entries whose value is positive. */
  function Slices(b: map<Category, int>): seq<Slice>
    requires forall c :: c in b
  {
    Filter(Entries(b), (s: Slice) => s.value > 0)
  }

  /** The pie data of a list of records. */
  function CategoryData(expenses: seq<Expense>): seq<Slice>
  {
    Slices(Breakdown(expenses))
  }

  /** The memoised computation: the `forEach` into a zeroed breakdown, then the filter and map. */
  method ComputeCategoryData(expenses: seq<Expense>) returns (slices: seq<Slice>)
    ensures slices == CategoryData(expenses)
  {
    var breakdown := Helpers.AccumulateBreakdown(expenses);
    slices := Slices(breakdown);
  }

  /** Each slice shows a positive value, its category's total, and the chart colour of its category. */
  lemma CategoryDataValues(expenses: seq<Expense>)
    ensures var r := CategoryData(expenses);
      forall i :: 0 <= i < |r| ==>
        r[i].value > 0 && r[i].value == CategoryTotal(expenses, r[i].name) && r[i].color == ChartColor(r[i].name)
  {
    var all := Entries(Breakdown(expenses));
    var r := CategoryData(expenses);
    forall i | 0 <= i < |r|
      ensures r[i].value == CategoryTotal(expenses, r[i].name) && r[i].color == ChartColor(r[i].name)
    {
      var j :| 0 <= j < |all| && all[j] == r[i];
    }
  }

  /** The slices come in declaration order, so no category has two. */
  lemma CategoryDataOrder(expenses: seq<Expense>)
    ensures var r := CategoryData(expenses);
      forall i, j :: 0 <= i < j < |r| ==> CategoryIndex(r[i].name) < CategoryIndex(r[j].name)
  {
    var before := (x: Slice, y: Slice) => CategoryIndex(x.name) < CategoryIndex(y.name);
    EntriesInOrder(Breakdown(expenses), before);
    FilterKeepsOrder(Entries(Breakdown(expenses)), before, (s: Slice) => s.value > 0);
  }

  lemma EntriesInOrder(b: map<Category, int>, before: (Slice, Slice) -> bool)
    requires forall c :: c in b
    requires forall x, y :: before(x, y) == (CategoryIndex(x.name) < CategoryIndex(y.name))
    ensures InOrder(Entries(b), before)
  {
    IndexOfListed();
  }

  /** A category has a slice exactly when its total is positive. */
  lemma CategoryDataComplete(expenses: seq<Expense>, c: Category)
    ensures var r := CategoryData(expenses);
      CategoryTotal(expenses, c) > 0 <==> exists i :: 0 <= i < |r| && r[i].name == c
  {
    var all := Entries(Breakdown(expenses));
    var r := CategoryData(expenses);
    CategoryDataValues(expenses);
    var k := CategoryIndex(c);
    if CategoryTotal(expenses, c) > 0 {
      assert all[k] in r;
      var i :| 0 <= i < |r| && r[i] == all[k];
    }
  }

  function SliceTotal(s: seq<Slice>): int
  {
    if s == [] then 0 else SliceTotal(s[..|s| - 1]) + s[|s| - 1].value
  }

  /** Dropping entries that are zero does not change the sum. */
  lemma {:induction false} DropZerosKeepsSum(s: seq<Slice>)
    requires forall i :: 0 <= i < |s| ==> s[i].value >= 0
    ensures SliceTotal(Filter(s, (x: Slice) => x.value > 0)) == SliceTotal(s)
  {
    if s != [] {
      var init := s[..|s| - 1];
      DropZerosKeepsSum(init);
      var r0 := Filter(init, (x: Slice) => x.value > 0);
      var r := r0 + [s[|s| - 1]];
      assert r[..|r| - 1] == r0;
    }
  }

  lemma SliceTotalSix(s: seq<Slice>)
    requires |s| == 6
    ensures SliceTotal(s) == s[0].value + s[1].value + s[2].value + s[3].value + s[4].value + s[5].value
  {
    assert s[..1][..0] == [];
    assert SliceTotal(s[..1]) == s[0].value;
    assert s[..2][..1] == s[..1];
    assert SliceTotal(s[..2]) == SliceTotal(s[..1]) + s[1].value;
    assert s[..3][..2] == s[..2];
    assert SliceTotal(s[..3]) == SliceTotal(s[..2]) + s[2].value;
    assert s[..4][..3] == s[..3];
    assert SliceTotal(s[..4]) == SliceTotal(s[..3]) + s[3].value;
    assert s[..5][..4] == s[..4];
    assert SliceTotal(s[..5]) == SliceTotal(s[..4]) + s[4].value;
  }

  /** With non-negative amounts, the pie shows all of the spending. */
  lemma SlicesSumToTotal(expenses: seq<Expense>)
    requires NonNegativeAmounts(expenses)
    ensures SliceTotal(CategoryData(expenses)) == Total(expenses)
  {
    var b := Breakdown(expenses);
    var all := Entries(b);
    forall i | 0 <= i < |all| ensures all[i].value >= 0 {
      CategoryTotalNonNegative(expenses, all[i].name);
    }
    DropZerosKeepsSum(all);
    SliceTotalSix(all);
    CategoryTotalsSum(expenses);
  }

  // ---- monthlyData ----

  /** One bar: the month's `MMM yyyy` label and its total. */
  datatype MonthPoint = MonthPoint(month: string, total: int)

  /** The number of months the bar chart shows, the current one included. */
  const MonthCount: nat := 6

  /** The clock readings the model covers: a valid date from year 1 on. */
  predicate ValidNow(now: Date)
  {
    ValidDate(now) && now.year >= 1
  }

  /** The first day of the `k`-th charted month, counting from five months before `now`. */
  function MonthStart(now: Date, k: nat): (d: Date)
    requires ValidNow(now) && k < MonthCount
    ensures ValidDate(d) && d.day == 1
    ensures MonthIndex(d.year, d.month) == MonthIndex(now.year, now.month) - (MonthCount - 1) + k
  {
    var idx := MonthIndex(now.year, now.month) - (MonthCount - 1) + k;
    Date(idx / 12, idx % 12 + 1, 1)
  }

  /** `format(month, 'MMM yyyy')`. */
  function MonthLabel(d: Date): (s: string)
    requires ValidDate(d)
    ensures |s| == 8
  {
    assert Pow10(4) == 10000;
    MonthAbbrev(d.month) + " " + PadDigits(EraYear(d.year), 4)
  }

  /** The record's `yyyy-MM` equals the `k`-th month's. */
  predicate InMonth(e: Expense, now: Date, k: nat)
    requires ValidNow(now) && k < MonthCount
  {
    match ParseIso(e.date)
    case Some(d) => FormatYearMonth(d) == FormatYearMonth(MonthStart(now, k))
    case None => false
  }

  /** The sum of the amounts dated in the `k`-th month. */
  function MonthTotal(expenses: seq<Expense>, now: Date, k: nat): int
    requires ValidNow(now) && k < MonthCount
  {
    Total(Filter(expenses, (e: Expense) => InMonth(e, now, k)))
  }

  /** The six bars, oldest first, each with its month's label and total. */
  function Bars(expenses: seq<Expense>, now: Date): (r: seq<MonthPoint>)
    requires ValidNow(now)
    ensures |r| == MonthCount
    ensures forall k :: 0 <= k < MonthCount ==> r[k].total == MonthTotal(expenses, now, k)
  {
    seq(MonthCount, k requires 0 <= k < MonthCount =>
      MonthPoint(MonthLabel(MonthStart(now, k)), MonthTotal(expenses, now, k)))
  }

  /**
   * `monthlyData`: nothing for no records; otherwise one bar per month,
   * oldest first, each with the sum of the amounts dated in that month.
   * Formatting a date that does not parse throws, so every date must parse.
   */
  function MonthlyData(expenses: seq<Expense>, now: Date): (r: seq<MonthPoint>)
    requires ValidNow(now) && ExpenseList.AllDatesParse(expenses)
    ensures expenses == [] <==> r == []
    ensures expenses != [] ==> |r| == MonthCount
  {
    if |expenses| == 0 then [] else Bars(expenses, now)
  }

  /**
   * Two valid dates have the same `yyyy-MM` exactly when they share the
   * month and the era year; from year 1 on, exactly when they share year
   * and month.
   */
  lemma YearMonthKey(a: Date, b: Date)
    requires ValidDate(a) && ValidDate(b)
    ensures FormatYearMonth(a) == FormatYearMonth(b) <==> EraYear(a.year) == EraYear(b.year) && a.month == b.month
    ensures a.year >= 1 && b.year >= 1 ==>
      (FormatYearMonth(a) == FormatYearMonth(b) <==> a.year == b.year && a.month == b.month)
  {
    KeyParts(a);
    KeyParts(b);
    if FormatYearMonth(a) == FormatYearMonth(b) {
      assert ParseDigits(FormatYearMonth(a)[..4]) == EraYear(a.year);
      assert ParseDigits(FormatYearMonth(b)[..4]) == EraYear(b.year);
      assert ParseDigits(FormatYearMonth(a)[5..]) == a.month;
      assert ParseDigits(FormatYearMonth(b)[5..]) == b.month;
    } else {
      assert FormatYearMonth(a) == FormatYearMonth(a)[..5] + FormatYearMonth(a)[5..];
      assert FormatYearMonth(b) == FormatYearMonth(b)[..5] + FormatYearMonth(b)[5..];
    }
  }

  /** The key is the padded era year, a dash and the padded month. */
  lemma KeyParts(d: Date)
    requires ValidDate(d)
    ensures var k := FormatYearMonth(d);
      && AllDigits(k[..4]) && ParseDigits(k[..4]) == EraYear(d.year) && k[..5] == k[..4] + "-"
      && AllDigits(k[5..]) && ParseDigits(k[5..]) == d.month && k[5..] == PadDigits(d.month, 2)
      && k[..4] == PadDigits(EraYear(d.year), 4)
  {
    assert Pow10(4) == 10000 && Pow10(2) == 100;
    var k := FormatYearMonth(d);
    assert k[..4] == PadDigits(EraYear(d.year), 4);
    assert k[5..] == PadDigits(d.month, 2);
  }

  /** The months are consecutive, oldest first, and the last one is the month of `now`. */
  lemma MonthsConsecutive(now: Date)
    requires ValidNow(now)
    ensures forall k :: 0 <= k < MonthCount - 1 ==>
      MonthIndex(MonthStart(now, k + 1).year, MonthStart(now, k + 1).month)
        == MonthIndex(MonthStart(now, k).year, MonthStart(now, k).month) + 1
    ensures MonthStart(now, MonthCount - 1) == Date(now.year, now.month, 1)
    ensures MonthLabel(MonthStart(now, MonthCount - 1)) == MonthAbbrev(now.month) + " " + PadDigits(now.year, 4)
  {
    assert Pow10(4) == 10000;
  }

  /**
   * A record is counted in the `k`-th bar exactly when its date has that
   * month's month and era year: for a bar and a date from year 1 on,
   * exactly when the date falls in that month; year 0 and year 1 share
   * their keys.
   */
  lemma InMonthSpec(e: Expense, now: Date, k: nat)
    requires ValidNow(now) && k < MonthCount && ParseIso(e.date).Some?
    ensures var d, m := ParseIso(e.date).value, MonthStart(now, k);
      InMonth(e, now, k) <==> EraYear(d.year) == EraYear(m.year) && d.month == m.month
    ensures var d, m := ParseIso(e.date).value, MonthStart(now, k);
      d.year >= 1 && m.year >= 1 ==> (InMonth(e, now, k) <==> d.year == m.year && d.month == m.month)
  {
    YearMonthKey(ParseIso(e.date).value, MonthStart(now, k));
  }

  /**
   * Early in year 1 the oldest bars fall in year 0, whose key is written
   * with year 1: a record dated in October of year 1 lands in the bar for
   * October of year 0.
   */
  lemma YearOneInYearZeroBar()
    ensures ValidNow(Date(1, 3, 15))
    ensures MonthStart(Date(1, 3, 15), 0) == Date(0, 10, 1)
    ensures ParseIso("0001-10-05") == Some(Date(1, 10, 5))
    ensures InMonth(Expense("", "0001-10-05", 0, Other, "", "", ""), Date(1, 3, 15), 0)
  {
    assert MonthStart(Date(1, 3, 15), 0) == Date(0, 10, 1);
    ReadYearOneOctober();
    YearMonthKey(Date(1, 10, 5), Date(0, 10, 1));
  }

  lemma ReadYearOneOctober()
    ensures ParseIso("0001-10-05") == Some(Date(1, 10, 5))
  {
    var s := "0001-10-05";
    assert s[..4] == "0001" && s[5..7] == "10" && s[8..] == "05";
    assert ParseDigits("0001") == 1 by {
      assert "0001"[..3] == "000" && "000"[..2] == "00" && "00"[..1] == "0" && "0"[..0] == "";
    }
    assert ParseDigits("10") == 10 by { assert "10"[..1] == "1" && "1"[..0] == ""; }
    assert ParseDigits("05") == 5 by { assert "05"[..1] == "0" && "0"[..0] == ""; }
  }

  /** No record is counted in two bars: six consecutive months never repeat a month. */
  lemma AtMostOneMonth(e: Expense, now: Date, j: nat, k: nat)
    requires ValidNow(now) && j < MonthCount && k < MonthCount
    requires InMonth(e, now, j) && InMonth(e, now, k)
    ensures j == k
  {
    InMonthSpec(e, now, j);
    InMonthSpec(e, now, k);
  }

  /** A month without records shows a zero bar. */
  lemma EmptyMonthIsZero(expenses: seq<Expense>, now: Date, k: nat)
    requires ValidNow(now) && ExpenseList.AllDatesParse(expenses) && expenses != [] && k < MonthCount
    requires forall i :: 0 <= i < |expenses| ==> !InMonth(expenses[i], now, k)
    ensures MonthlyData(expenses, now)[k].total == 0
  {
    assert MonthlyData(expenses, now)[k].total == MonthTotal(expenses, now, k);
    FilterNonePass(expenses, (e: Expense) => InMonth(e, now, k));
  }

  /**
   * The sums over the months are argued for any family of filters `p(e, k)`
   * that puts each record in at most one bucket `k`.
   */
  function BucketsTotal(expenses: seq<Expense>, p: (Expense, nat) -> bool, n: nat): int
  {
    if n == 0 then 0 else BucketsTotal(expenses, p, n - 1) + Bucket(expenses, p, n - 1)
  }

  /** The sum of the amounts in bucket `k`. */
  function Bucket(expenses: seq<Expense>, p: (Expense, nat) -> bool, k: nat): int
  {
    Total(Filter(expenses, (e: Expense) => p(e, k)))
  }

  /** What one record adds to the first `n` buckets together. */
  function Contribution(e: Expense, p: (Expense, nat) -> bool, n: nat): int
  {
    if n == 0 then 0
    else Contribution(e, p, n - 1) + (if p(e, n - 1) then e.amount else 0)
  }

  lemma FilterSnoc(init: seq<Expense>, e: Expense, p: Expense -> bool)
    ensures Total(Filter(init + [e], p)) == Total(Filter(init, p)) + (if p(e) then e.amount else 0)
  {
    var s := init + [e];
    assert s[..|s| - 1] == init;
    if p(e) {
      var r := Filter(init, p) + [e];
      assert r[..|r| - 1] == Filter(init, p);
    }
  }

  /** Filters that agree on every record select the same records. */
  lemma {:induction false} FilterSameTest(s: seq<Expense>, p: Expense -> bool, q: Expense -> bool)
    requires forall e :: p(e) == q(e)
    ensures Filter(s, p) == Filter(s, q)
  {
    if s != [] {
      FilterSameTest(s[..|s| - 1], p, q);
    }
  }

  /** Appending a record adds its contribution to the bucket totals. */
  lemma {:induction false} BucketsTotalSnoc(init: seq<Expense>, e: Expense, p: (Expense, nat) -> bool, n: nat)
    ensures BucketsTotal(init + [e], p, n) == BucketsTotal(init, p, n) + Contribution(e, p, n)
  {
    if n > 0 {
      BucketsTotalSnoc(init, e, p, n - 1);
      FilterSnoc(init, e, (x: Expense) => p(x, n - 1));
    }
  }

  /** A record in at most one bucket adds its amount at most once. */
  lemma {:induction false} ContributionAtMostOnce(e: Expense, p: (Expense, nat) -> bool, n: nat)
    requires forall j: nat, k: nat :: j < k < n && p(e, j) ==> !p(e, k)
    ensures Contribution(e, p, n) == 0 || Contribution(e, p, n) == e.amount
    ensures (forall k: nat :: k < n ==> !p(e, k)) ==> Contribution(e, p, n) == 0
  {
    if n > 0 {
      ContributionAtMostOnce(e, p, n - 1);
    }
  }

  /** With non-negative amounts and disjoint buckets, the buckets hold at most the total. */
  lemma {:induction false} BucketsAtMostTotal(expenses: seq<Expense>, p: (Expense, nat) -> bool, n: nat)
    requires NonNegativeAmounts(expenses)
    requires forall e, j: nat, k: nat :: j < k < n && p(e, j) ==> !p(e, k)
    ensures 0 <= BucketsTotal(expenses, p, n) <= Total(expenses)
  {
    if expenses != [] {
      var init := expenses[..|expenses| - 1];
      var e := expenses[|expenses| - 1];
      assert expenses == init + [e];
      assert NonNegativeAmounts(init) && e.amount >= 0;
      BucketsAtMostTotal(init, p, n);
      BucketsTotalSnoc(init, e, p, n);
      ContributionAtMostOnce(e, p, n);
    } else {
      BucketsTotalEmpty(p, n);
    }
  }

  lemma {:induction false} BucketsTotalEmpty(p: (Expense, nat) -> bool, n: nat)
    ensures BucketsTotal([], p, n) == 0
  {
    if n > 0 {
      BucketsTotalEmpty(p, n - 1);
    }
  }

  /** The charted months as a family of filters. */
  function MonthBuckets(now: Date): (Expense, nat) -> bool
    requires ValidNow(now)
  {
    (e: Expense, k: nat) => k < MonthCount && InMonth(e, now, k)
  }

  /** No record is in two charted months. */
  lemma MonthBucketsDisjoint(now: Date)
    requires ValidNow(now)
    ensures var p := MonthBuckets(now);
      forall e, j: nat, k: nat :: j < k < MonthCount && p(e, j) ==> !p(e, k)
  {
    forall e, j: nat, k: nat | j < k < MonthCount && InMonth(e, now, j) ensures !InMonth(e, now, k) {
      if InMonth(e, now, k) {
        AtMostOneMonth(e, now, j, k);
      }
    }
  }

  /** The sum of the bars' totals. */
  function PointsTotal(r: seq<MonthPoint>): int
  {
    if r == [] then 0 else PointsTotal(r[..|r| - 1]) + r[|r| - 1].total
  }

  /** The `k`-th bar's total is the `k`-th bucket's. */
  lemma MonthTotalIsBucket(expenses: seq<Expense>, now: Date, k: nat)
    requires ValidNow(now) && k < MonthCount
    ensures MonthTotal(expenses, now, k) == Bucket(expenses, MonthBuckets(now), k)
  {
    var p := MonthBuckets(now);
    var inMonth := (e: Expense) => InMonth(e, now, k);
    var bucket := (e: Expense) => p(e, k);
    forall e ensures inMonth(e) == bucket(e) {
      assert bucket(e) == MonthBuckets(now)(e, k);
    }
    FilterSameTest(expenses, inMonth, bucket);
  }

  /** Points that hold the bucket totals add up, prefix by prefix, to the bucket sums. */
  lemma {:induction false} PointsTotalPrefix(r: seq<MonthPoint>, expenses: seq<Expense>, p: (Expense, nat) -> bool, n: nat)
    requires n <= |r|
    requires forall k :: 0 <= k < |r| ==> r[k].total == Bucket(expenses, p, k)
    ensures PointsTotal(r[..n]) == BucketsTotal(expenses, p, n)
  {
    if n > 0 {
      PointsTotalPrefix(r, expenses, p, n - 1);
      assert r[..n][..n - 1] == r[..n - 1];
    }
  }

  /** With non-negative amounts, the bars together never show more than the total spending. */
  lemma MonthlyDataAtMostTotal(expenses: seq<Expense>, now: Date)
    requires ValidNow(now) && ExpenseList.AllDatesParse(expenses) && NonNegativeAmounts(expenses)
    ensures 0 <= PointsTotal(MonthlyData(expenses, now)) <= Total(expenses)
  {
    if expenses != [] {
      var r := Bars(expenses, now);
      assert MonthlyData(expenses, now) == r;
      forall k | 0 <= k < |r| ensures r[k].total == Bucket(expenses, MonthBuckets(now), k) {
        MonthTotalIsBucket(expenses, now, k);
      }
      PointsTotalPrefix(r, expenses, MonthBuckets(now), MonthCount);
      assert r[..MonthCount] == r;
      MonthBucketsDisjoint(now);
      BucketsAtMostTotal(expenses, MonthBuckets(now), MonthCount);
    }
  }
}
