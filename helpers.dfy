/**
 * The shared helpers: date display with its fallback, form validation,
 * the dashboard summary, the first CSV builder (amounts printed with
 * `toString()`), and the per-category colour and icon tables.
 */
module Helpers {
  import opened Wrappers
  import opened Text
  import opened Money
  import opened Dates
  import opened Expenses
  import Csv

  // ---- formatDate ----

  /** The date-fns patterns the callers pass. */
  datatype DatePattern = YearMonthDay | MonthDayYear

  /**
   * `formatDate(s, pattern)`: the parsed date in the pattern, or the input
   * itself when it is not a date (the caught `RangeError`).
   */
  function FormatDate(s: string, pattern: DatePattern): string
  {
    match ParseIso(s)
    case None => s
    case Some(d) =>
      if pattern == YearMonthDay then FormatYmd(d) else FormatMonthDayYear(d)
  }

  /**
   * An unparseable input comes back unchanged; a parseable one comes back
   * as ten characters `yyyy-MM-dd` naming the same month and day of the
   * era year, so the same day from year 1 on.
   */
  lemma FormatDateFallback(s: string, pattern: DatePattern)
    ensures ParseIso(s).None? ==> FormatDate(s, pattern) == s
    ensures ParseIso(s).Some? && pattern == YearMonthDay ==>
      var r, d := FormatDate(s, pattern), ParseIso(s).value;
      && |r| == 10 && r[4] == '-' && r[7] == '-'
      && ParseIso(r) == MakeDate(EraYear(d.year), d.month, d.day)
      && (d.year >= 1 ==> ParseIso(r) == ParseIso(s))
  {
    if ParseIso(s).Some? && pattern == YearMonthDay {
      var d := ParseIso(s).value;
      assert FormatDate(s, pattern) == FormatYmd(d);
      FormatYmdRoundTrip(d);
    }
  }

  /**
   * A stored `YYYY-MM-DD` date comes out of the export pattern unchanged,
   * except that year `0000` is written `0001`; unparseable text is kept.
   */
  lemma FormatDateKeepsCanonical(s: string)
    requires |s| == 10 || ParseIso(s).None?
    ensures FormatDate(s, YearMonthDay)
         == if ParseIso(s).Some? && s[..4] == "0000" then "0001" + s[4..] else s
  {
    if ParseIso(s).Some? {
      CanonicalDateUnchanged(s);
    }
  }

  // ---- validateExpenseForm ----

  datatype Field = DateField | AmountField | CategoryField | DescriptionField

  function Message(f: Field): string
  {
    match f
    case DateField => "Date is required"
    case AmountField => "Amount must be greater than 0"
    case CategoryField => "Category is required"
    case DescriptionField => "Description is required"
  }

  /**
   * What `parseFloat` reads before it rounds to a double: NaN, a signed
   * infinity, or the signed decimal `digits × 10^scale`.
   */
  datatype ParsedNumber = NaN | Infinite(negative: bool) | Decimal(negative: bool, digits: nat, scale: int)

  /** Length of the run of digits at the front of `s`. */
  function DigitRun(s: string): (k: nat)
    ensures k <= |s| && AllDigits(s[..k])
    ensures k < |s| ==> !IsDigit(s[k])
  {
    if s != [] && IsDigit(s[0]) then
      var k := 1 + DigitRun(s[1..]);
      assert s[..k] == [s[0]] + s[1..][..k - 1];
      k
    else 0
  }

  predicate AllZeros(s: string) { forall i :: 0 <= i < |s| ==> s[i] == '0' }

  function Pow2(k: nat): (p: nat)
    ensures p >= 1
  {
    if k == 0 then 1 else 2 * Pow2(k - 1)
  }

  /** The smallest positive double is 2^-1074; half of it is 2^-UnderflowBits. */
  const UnderflowBits: nat := 1075

  /**
   * Whether the decimal `digits × 10^scale` rounds to a zero double: a value
   * of at most 2^-1075 does (2^-1075 itself is a tie, which goes to the even
   * neighbour, zero); a value of 1 or more never does.
   */
  predicate RoundsToZero(digits: nat, scale: int)
  {
    digits == 0 || (scale < 0 && digits * Pow2(UnderflowBits) <= Pow10(-scale))
  }

  /**
   * The value of an exponent part (`e` or `E`, an optional sign, digits) at
   * the front of `s`; 0 when there is none, as `parseFloat` then stops
   * before the `e`.
   */
  function Exponent(s: string): int
  {
    if s != [] && (s[0] == 'e' || s[0] == 'E') then
      var v := s[1..];
      var w := if v != [] && (v[0] == '-' || v[0] == '+') then v[1..] else v;
      var digits := w[..DigitRun(w)];
      if digits == [] then 0
      else if v[0] == '-' then -(ParseDigits(digits) as int)
      else ParseDigits(digits)
    else 0
  }

  /**
   * `parseFloat(s)`: skips leading white space, reads an optional sign and
   * the longest prefix `digits [. digits] [exponent]` with at least one
   * digit (or `Infinity`); anything else is NaN.
   */
  function ParseFloat(s: string): (n: ParsedNumber)
  {
    ReadNumber(TrimStart(s))
  }

  /** What `parseFloat` reads from text whose white space is already skipped. */
  function ReadNumber(t: string): (n: ParsedNumber)
  {
    var negative := t != [] && t[0] == '-';
    var u := if t != [] && (t[0] == '-' || t[0] == '+') then t[1..] else t;
    if "Infinity" <= u then Infinite(negative) else ReadDecimal(negative, u)
  }

  /** The unsigned decimal `digits [. digits] [exponent]` at the front of `u`. */
  function ReadDecimal(negative: bool, u: string): (n: ParsedNumber)
  {
    var k := DigitRun(u);
    if k < |u| && u[k] == '.' then ReadFraction(negative, u[..k], u[k + 1..])
    else if k == 0 then NaN
    else Decimal(negative, ParseDigits(u[..k]), Exponent(u[k..]))
  }

  /** The part after the point: `whole . digits [exponent]`, where `v` follows the point. */
  function ReadFraction(negative: bool, whole: string, v: string): (n: ParsedNumber)
    requires AllDigits(whole)
  {
    var m := DigitRun(v);
    if whole == [] && m == 0 then NaN
    else Decimal(negative, ParseDigits(whole + v[..m]), Exponent(v[m..]) - m)
  }

  /**
   * `parseFloat(amount) <= 0`: false for NaN, true for anything negative
   * (`-0` included) and for a decimal that rounds to zero.
   */
  predicate AtMostZero(n: ParsedNumber)
  {
    match n
    case NaN => false
    case Infinite(negative) => negative
    case Decimal(negative, digits, scale) => negative || RoundsToZero(digits, scale)
  }

  /** The amount check: `!amount || parseFloat(amount) <= 0`. */
  predicate AmountRejected(amount: string)
  {
    amount == [] || AtMostZero(ParseFloat(amount))
  }

  /** Text that `parseFloat` reads as NaN passes the amount check. */
  lemma NaNAmountAccepted(amount: string)
    requires amount != [] && ParseFloat(amount).NaN?
    ensures !AmountRejected(amount)
  {
  }

  /**
   * Text that starts with a letter other than the `I` of `Infinity` (or with
   * any other character that cannot begin a number) reads as NaN, and so
   * passes the amount check.
   */
  lemma WordIsNaN(s: string)
    requires s != [] && !IsWhitespace(s[0]) && !IsDigit(s[0]) && s[0] !in "+-.I"
    ensures ParseFloat(s).NaN? && !AmountRejected(s)
  {
    assert TrimStart(s) == s;
    assert "Infinity"[0] == 'I' && s[0] != 'I';
    assert !("Infinity" <= s);
  }

  /** A minus sign followed by a digit is rejected, whatever the digits are. */
  lemma MinusDigitsRejected(d: string)
    requires d != [] && IsDigit(d[0])
    ensures ParseFloat("-" + d).Decimal? && AmountRejected("-" + d)
  {
    var s := "-" + d;
    assert s[0] == '-' && s[1..] == d;
    assert TrimStart(s) == s;
    assert "Infinity"[0] == 'I' && d[0] != 'I';
    assert !("Infinity" <= d);
    assert DigitRun(d) >= 1;
  }

  /** White space before the amount changes nothing `parseFloat` reads. */
  lemma LeadingSpaceIgnored(ws: string, s: string)
    requires forall i :: 0 <= i < |ws| ==> IsWhitespace(ws[i])
    ensures ParseFloat(ws + s) == ParseFloat(s)
    ensures s != [] ==> (AmountRejected(ws + s) <==> AmountRejected(s))
  {
    TrimStartSkips(ws, s);
  }

  /**
   * A minus sign and digits are rejected whatever white space comes
   * first, an ideographic space or a no-break space included.
   */
  lemma SpaceMinusRejected(ws: string, d: string)
    requires forall i :: 0 <= i < |ws| ==> IsWhitespace(ws[i])
    requires d != [] && IsDigit(d[0])
    ensures AmountRejected(ws + ("-" + d))
  {
    LeadingSpaceIgnored(ws, "-" + d);
    MinusDigitsRejected(d);
  }

  /** `z` zeros and then a one. */
  function ZerosThenOne(z: nat): string
  {
    seq(z, _ => '0') + "1"
  }

  /** `0.` followed by `z` zeros and a one: the decimal 10^-(z+1). */
  function TinyDecimal(z: nat): string
  {
    "0." + ZerosThenOne(z)
  }

  /**
   * A decimal far below the smallest double, such as `0.` and 400 zeros and
   * a one, rounds to zero and is rejected like `0`.
   */
  lemma TinyDecimalRejected(z: nat)
    requires z >= 358
    ensures ParseFloat(TinyDecimal(z)) == Decimal(false, 1, -(z + 1))
    ensures RoundsToZero(1, -(z + 1))
    ensures AmountRejected(TinyDecimal(z))
  {
    TinyDecimalReads(z);
    TenthPowerUnderflows(z + 1);
  }

  /** A small decimal that a double can still hold, down to 10^-268, is accepted. */
  lemma SmallDecimalAccepted(z: nat)
    requires z < 268
    ensures ParseFloat(TinyDecimal(z)) == Decimal(false, 1, -(z + 1))
    ensures !RoundsToZero(1, -(z + 1))
    ensures !AmountRejected(TinyDecimal(z))
  {
    TinyDecimalReads(z);
    TenthPowerRepresentable(z + 1);
  }

  /** 10^-k does not round to zero while k <= 268, by 10 < 2^4. */
  lemma TenthPowerRepresentable(k: nat)
    requires k <= 268
    ensures !RoundsToZero(1, -(k as int))
  {
    TensBelowSixteens(k);
    Pow2Monotonic(4 * k, UnderflowBits);
  }

  /**
   * The exponent is read too: `1e-k` for a large `k` rounds to zero and is
   * rejected, although its digits are not all zeros.
   */
  lemma ExponentUnderflowRejected(k: nat)
    requires k >= 359
    ensures ParseFloat("1e-" + NatToString(k)) == Decimal(false, 1, -(k as int))
    ensures AmountRejected("1e-" + NatToString(k))
  {
    OneExponentReads(k);
    TenthPowerUnderflows(k);
  }

  /** 10^-k rounds to zero once k >= 359, by 2^3 <= 10. */
  lemma TenthPowerUnderflows(k: nat)
    requires k >= 359
    ensures RoundsToZero(1, -(k as int))
  {
    EightsBelowTens(k);
    Pow2Monotonic(UnderflowBits, 3 * k);
  }

  lemma OneExponentReads(k: nat)
    ensures ParseFloat("1e-" + NatToString(k)) == Decimal(false, 1, -(k as int))
  {
    var x := "e-" + NatToString(k);
    assert "1e-" + NatToString(k) == "1" + x;
    StartsWithDigit("1" + x);
    UnsignedDigitReads("1" + x);
    OneThenReads(x);
    NegativeExponentReads(k);
  }

  lemma OneThenReads(x: string)
    requires x != [] && !IsDigit(x[0]) && x[0] != '.'
    ensures ReadDecimal(false, "1" + x) == Decimal(false, 1, Exponent(x))
  {
    var u := "1" + x;
    assert DigitRun(u[1..]) == 0;
    assert u[..1] == "1" && u[1..] == x;
    assert ParseDigits("1") == 1 by { assert "1"[..0] == []; }
  }

  lemma NegativeExponentReads(k: nat)
    ensures Exponent("e-" + NatToString(k)) == -(k as int)
  {
    var w := NatToString(k);
    var v := "-" + w;
    assert ("e-" + w)[1..] == v && v[1..] == w;
    AllDigitsRun(w);
    assert w[..|w|] == w;
  }

  lemma TinyDecimalReads(z: nat)
    ensures ParseFloat(TinyDecimal(z)) == Decimal(false, 1, -(z + 1))
  {
    StartsWithDigit(TinyDecimal(z));
    ZerosThenOneReadsOne(z);
    PointFractionReads(ZerosThenOne(z));
    ZeroBeforeZeros(z);
    ZerosThenOneReadsOne(z + 1);
  }

  lemma StartsWithDigit(s: string)
    requires s != [] && IsDigit(s[0])
    ensures ParseFloat(s) == ReadNumber(s)
  {
    assert TrimStart(s) == s;
  }

  lemma ZeroBeforeZeros(z: nat)
    ensures "0" + ZerosThenOne(z) == ZerosThenOne(z + 1)
  {
  }

  /** `0.` and a digit string read as that string's digits, scaled down by its length. */
  lemma PointFractionReads(f: string)
    requires AllDigits(f)
    ensures AllDigits("0" + f)
    ensures ReadNumber("0." + f) == Decimal(false, ParseDigits("0" + f), -|f|)
  {
    LeadingZeroDigits(f);
    UnsignedDigitReads("0." + f);
    ZeroPointReads(f);
    DigitsFractionReads("0", f);
  }

  lemma UnsignedDigitReads(u: string)
    requires u != [] && IsDigit(u[0])
    ensures ReadNumber(u) == ReadDecimal(false, u)
  {
    assert !("Infinity" <= u) by { assert "Infinity"[0] == 'I' && u[0] != 'I'; }
  }

  lemma ZeroPointReads(f: string)
    ensures ReadDecimal(false, "0." + f) == ReadFraction(false, "0", f)
  {
    var u := "0." + f;
    assert DigitRun(u[1..]) == 0;
    assert u[..1] == "0" && u[2..] == f;
  }

  lemma DigitsFractionReads(whole: string, f: string)
    requires whole != [] && AllDigits(whole) && AllDigits(f) && AllDigits(whole + f)
    ensures ReadFraction(false, whole, f) == Decimal(false, ParseDigits(whole + f), -|f|)
  {
    AllDigitsRun(f);
    assert f[..|f|] == f;
    assert f[|f|..] == [];
  }

  lemma AllDigitsRun(f: string)
    requires AllDigits(f)
    ensures DigitRun(f) == |f|
  {
  }

  lemma LeadingZeroDigits(f: string)
    requires AllDigits(f)
    ensures AllDigits("0" + f)
  {
    assert forall i :: 1 <= i <= |f| ==> ("0" + f)[i] == f[i - 1];
  }

  lemma ZerosThenOneReadsOne(z: nat)
    ensures AllDigits(ZerosThenOne(z)) && ParseDigits(ZerosThenOne(z)) == 1
  {
    var s := seq(z, _ => '0');
    ZerosReadZero(s);
    assert ZerosThenOne(z)[..z] == s;
  }

  lemma {:induction false} ZerosReadZero(s: string)
    requires AllZeros(s)
    ensures AllDigits(s) && ParseDigits(s) == 0
  {
    if s != [] {
      ZerosReadZero(s[..|s| - 1]);
    }
  }

  lemma {:induction false} Pow2Sum(a: nat, b: nat)
    ensures Pow2(a + b) == Pow2(a) * Pow2(b)
  {
    if a > 0 {
      Pow2Sum(a - 1, b);
    }
  }

  lemma {:induction false} Pow2Monotonic(a: nat, b: nat)
    requires a <= b
    ensures Pow2(a) <= Pow2(b)
  {
    if a < b {
      Pow2Monotonic(a, b - 1);
    }
  }

  /** 10 < 2^4, so 10^k < 2^(4k) once k > 0. */
  lemma {:induction false} TensBelowSixteens(k: nat)
    ensures Pow10(k) <= Pow2(4 * k)
    ensures k > 0 ==> Pow10(k) < Pow2(4 * k)
  {
    if k > 0 {
      TensBelowSixteens(k - 1);
      Pow2Sum(4, 4 * (k - 1));
      assert Pow2(4) == 16;
    }
  }

  /** 2^3 <= 10, so 2^(3k) <= 10^k. */
  lemma {:induction false} EightsBelowTens(k: nat)
    ensures Pow2(3 * k) <= Pow10(k)
  {
    if k > 0 {
      EightsBelowTens(k - 1);
      Pow2Sum(3, 3 * (k - 1));
      assert Pow2(3) == 8;
    }
  }

  /** `!s.trim()`: nothing but white space. */
  method TrimmedEmpty(s: string) returns (b: bool)
    ensures b <==> Blank(s)
  {
    b := Trim(s) == [];
    TrimEmptyIff(s);
  }

  /**
   * `validateExpenseForm`: every check runs, and every failing field gets
   * its message; the form is valid exactly when no check failed.
   */
  method ValidateExpenseForm(date: string, amount: string, category: string, description: string)
    returns (isValid: bool, errors: map<Field, string>)
    ensures DateField in errors <==> date == []
    ensures AmountField in errors <==> AmountRejected(amount)
    ensures CategoryField in errors <==> category == []
    ensures DescriptionField in errors <==> Blank(description)
    ensures forall f :: f in errors ==> errors[f] == Message(f)
    ensures isValid <==> errors == map[]
  {
    errors := map[];
    if date == [] {
      errors := errors[DateField := Message(DateField)];
    }
    assert DateField in errors <==> date == [];
    assert forall f :: f in errors ==> f == DateField && errors[f] == Message(f);
    if AmountRejected(amount) {
      errors := errors[AmountField := Message(AmountField)];
    }
    assert forall f :: f in errors ==> errors[f] == Message(f);
    if category == [] {
      errors := errors[CategoryField := Message(CategoryField)];
    }
    assert DateField in errors <==> date == [];
    assert forall f :: f in errors ==> errors[f] == Message(f);
    var blank := TrimmedEmpty(description);
    if blank {
      errors := errors[DescriptionField := Message(DescriptionField)];
    }
    isValid := |errors| == 0;
    if !isValid {
      assert |errors| > 0;
    }
  }

  // ---- calculateSummary ----

  datatype Summary = Summary(
    totalSpending: int,
    monthlySpending: int,
    categoryBreakdown: map<Category, int>,
    topCategory: Option<Category>,
    expenseCount: nat)

  /** The record's date parses and lies in the same calendar month as `now`. */
  predicate InMonthOf(now: Date, e: Expense)
  {
    match ParseIso(e.date)
    case Some(d) => d.year == now.year && d.month == now.month
    case None => false
  }

  /** The records counted in the month's spending. */
  function MonthlyExpenses(expenses: seq<Expense>, now: Date): seq<Expense>
  {
    Filter(expenses, (e: Expense) => InMonthOf(now, e))
  }

  /**
   * `top` is what the strict-`>` scan over the breakdown in declaration
   * order finds: nothing when no total is positive; otherwise a positive
   * maximum that every earlier category falls strictly short of.
   */
  predicate IsTopCategory(b: map<Category, int>, top: Option<Category>)
    requires forall c :: c in b
  {
    match top
    case None => forall c :: b[c] <= 0
    case Some(t) =>
      && b[t] > 0
      && (forall c :: b[c] <= b[t])
      && (forall c :: CategoryIndex(c) < CategoryIndex(t) ==> b[c] < b[t])
  }

  /** The tie-breaking rule leaves exactly one answer. */
  lemma TopCategoryUnique(b: map<Category, int>, t1: Option<Category>, t2: Option<Category>)
    requires forall c :: c in b
    requires IsTopCategory(b, t1) && IsTopCategory(b, t2)
    ensures t1 == t2
  {
    if t1.Some? && t2.Some? {
      var a, c := t1.value, t2.value;
      assert b[a] == b[c];
      assert CategoryIndex(a) == CategoryIndex(c);
      assert a == AllCategories[CategoryIndex(a)];
    }
  }

  /** The `forEach` that adds every amount to its category's entry. */
  method AccumulateBreakdown(expenses: seq<Expense>) returns (b: map<Category, int>)
    ensures b == Breakdown(expenses)
  {
    b := map[Food := 0, Transportation := 0, Entertainment := 0, Shopping := 0, Bills := 0, Other := 0];
    for i := 0 to |expenses|
      invariant b == Breakdown(expenses[..i])
    {
      var e := expenses[i];
      assert expenses[..i + 1][..i] == expenses[..i];
      b := b[e.category := b[e.category] + e.amount];
    }
    assert expenses[..|expenses|] == expenses;
  }

  /** The scan over the breakdown entries for the largest positive total. */
  method FindTopCategory(b: map<Category, int>) returns (top: Option<Category>)
    requires forall c :: c in b
    ensures IsTopCategory(b, top)
  {
    top := None;
    var maxAmount := 0;
    for i := 0 to |AllCategories|
      invariant top.None? ==> maxAmount == 0
      invariant top.Some? ==> CategoryIndex(top.value) < i && b[top.value] == maxAmount > 0
      invariant forall j :: 0 <= j < i ==> b[AllCategories[j]] <= maxAmount
      invariant top.Some? ==> forall j :: 0 <= j < CategoryIndex(top.value) ==> b[AllCategories[j]] < maxAmount
    {
      var c := AllCategories[i];
      if b[c] > maxAmount {
        maxAmount := b[c];
        top := Some(c);
      }
    }
    forall c ensures b[c] <= maxAmount {
      assert AllCategories[CategoryIndex(c)] == c;
    }
  }

  /**
   * `calculateSummary(expenses)` with the clock's reading passed in as
   * `now`.
   */
  method CalculateSummary(expenses: seq<Expense>, now: Date) returns (s: Summary)
    ensures s.totalSpending == Total(expenses)
    ensures s.monthlySpending == Total(MonthlyExpenses(expenses, now))
    ensures s.categoryBreakdown == Breakdown(expenses)
    ensures IsTopCategory(s.categoryBreakdown, s.topCategory)
    ensures s.expenseCount == |expenses|
  {
    var totalSpending := Total(expenses);
    var monthlySpending := Total(MonthlyExpenses(expenses, now));
    var breakdown := AccumulateBreakdown(expenses);
    var top := FindTopCategory(breakdown);
    s := Summary(totalSpending, monthlySpending, breakdown, top, |expenses|);
  }

  /** The breakdown's six values add up to the total spending. */
  lemma BreakdownSumsToTotal(expenses: seq<Expense>)
    ensures var b := Breakdown(expenses);
      b[Food] + b[Transportation] + b[Entertainment] + b[Shopping] + b[Bills] + b[Other] == Total(expenses)
  {
    CategoryTotalsSum(expenses);
  }

  /** With non-negative amounts the month's spending is at most the total. */
  lemma MonthlyAtMostTotal(expenses: seq<Expense>, now: Date)
    requires NonNegativeAmounts(expenses)
    ensures 0 <= Total(MonthlyExpenses(expenses, now)) <= Total(expenses)
  {
    TotalFilterAtMost(expenses, (e: Expense) => InMonthOf(now, e));
  }

  /** A record whose date does not parse never counts toward the month. */
  lemma UnparseableNotInMonth(expenses: seq<Expense>, now: Date, i: nat)
    requires i < |expenses| && ParseIso(expenses[i].date).None?
    ensures expenses[i] !in MonthlyExpenses(expenses, now)
  {
  }

  // ---- exportToCSV (helpers) ----
  // Both exporters build the same table; they differ only in how the
  // amount is printed, so the table takes the amount format.

  /** `amount.toString()` (this module) or `amount.toFixed(2)` (the export utilities). */
  datatype AmountFormat = ShortestForm | TwoDecimals

  function AmountText(fmt: AmountFormat, cents: int): string
  {
    match fmt
    case ShortestForm => NumberToString(cents)
    case TwoDecimals => ToFixed2(cents)
  }

  const HeaderCells: seq<Csv.Cell> := [Csv.Plain("Date"), Csv.Plain("Category"), Csv.Plain("Amount"), Csv.Plain("Description")]

  const Header: seq<string> := ["Date", "Category", "Amount", "Description"]

  /** One data row: date in `yyyy-MM-dd`, category, amount, quoted description. */
  function CsvRow(e: Expense, fmt: AmountFormat): seq<Csv.Cell>
  {
    [Csv.Plain(FormatDate(e.date, YearMonthDay)), Csv.Plain(CategoryName(e.category)),
     Csv.Plain(AmountText(fmt, e.amount)), Csv.Quoted(e.description)]
  }

  /** The header row followed by one row per record, in input order. */
  function CsvTable(expenses: seq<Expense>, fmt: AmountFormat): seq<seq<Csv.Cell>>
  {
    [HeaderCells] + seq(|expenses|, i requires 0 <= i < |expenses| => CsvRow(expenses[i], fmt))
  }

  /** `exportToCSV(expenses)` of the helpers: header line, then one line per record. */
  function ExportToCsv(expenses: seq<Expense>): string
  {
    Csv.Document(CsvTable(expenses, ShortestForm))
  }

  /** A date the CSV can carry without quotes: a parseable one, or one with no separator in it. */
  predicate CsvSafeDate(s: string)
  {
    ParseIso(s).Some? || Csv.IsPlain(s)
  }

  lemma AmountTextPlain(fmt: AmountFormat, cents: int)
    ensures Csv.IsPlain(AmountText(fmt, cents))
  {
    match fmt
    case TwoDecimals => FixedPlain(cents);
    case ShortestForm =>
      ShortestPlain(Abs(cents));
      Csv.PlainConcat(Sign(cents), ShortestUnsigned(Abs(cents)));
  }

  lemma FixedPlain(cents: int)
    ensures Csv.IsPlain(ToFixed2(cents))
  {
    var whole := NatToString(Abs(cents) / 100);
    var f := PadDigits(Abs(cents) % 100, 2);
    Csv.DigitsArePlain(whole);
    Csv.DigitsArePlain(f);
    Csv.PlainConcat(Sign(cents), whole);
    Csv.PlainConcat(".", f);
    Csv.PlainConcat(Sign(cents) + whole, "." + f);
  }

  lemma ShortestPlain(a: nat)
    ensures Csv.IsPlain(ShortestUnsigned(a))
  {
    var whole := NatToString(a / 100);
    Csv.DigitsArePlain(whole);
    var frac := a % 100;
    if frac == 0 {
      assert ShortestUnsigned(a) == whole + "";
    } else if frac % 10 == 0 {
      Csv.PlainConcat(whole, "." + [DigitChar(frac / 10)]);
    } else {
      var f := PadDigits(frac, 2);
      Csv.DigitsArePlain(f);
      Csv.PlainConcat(".", f);
      Csv.PlainConcat(whole, "." + f);
    }
  }

  lemma ExportDatePlain(s: string)
    requires CsvSafeDate(s)
    ensures Csv.IsPlain(FormatDate(s, YearMonthDay))
  {
    if ParseIso(s).Some? {
      var d := ParseIso(s).value;
      assert Pow10(4) == 10000;
      var y, m, dd := PadDigits(EraYear(d.year), 4), PadDigits(d.month, 2), PadDigits(d.day, 2);
      Csv.DigitsArePlain(y);
      Csv.DigitsArePlain(m);
      Csv.DigitsArePlain(dd);
      Csv.PlainConcat(y, "-");
      Csv.PlainConcat(y + "-", m);
      Csv.PlainConcat(y + "-" + m, "-");
      Csv.PlainConcat(y + "-" + m + "-", dd);
    }
  }

  lemma AmountReadsBack(fmt: AmountFormat, cents: int)
    ensures ParseCents(AmountText(fmt, cents)) == Some(cents)
  {
    if fmt == ShortestForm {
      NumberToStringRoundTrip(cents);
    } else {
      ToFixed2RoundTrip(cents);
    }
  }

  lemma CsvRowWellFormed(e: Expense, fmt: AmountFormat)
    requires CsvSafeDate(e.date)
    ensures var row := CsvRow(e, fmt);
      |row| == 4 && forall j :: 0 <= j < 4 ==> Csv.WellFormed(row[j])
  {
    var row := CsvRow(e, fmt);
    ExportDatePlain(e.date);
    AmountTextPlain(fmt, e.amount);
    CategoryNamePlain(e.category);
    assert row[0] == Csv.Plain(FormatDate(e.date, YearMonthDay));
    assert row[1] == Csv.Plain(CategoryName(e.category));
    assert row[2] == Csv.Plain(AmountText(fmt, e.amount));
  }

  lemma CategoryNamePlain(c: Category)
    ensures Csv.IsPlain(CategoryName(c))
  {
  }

  lemma CsvTableWellFormed(expenses: seq<Expense>, fmt: AmountFormat)
    requires forall i :: 0 <= i < |expenses| ==> CsvSafeDate(expenses[i].date)
    ensures var rows := CsvTable(expenses, fmt);
      && (forall r :: 0 <= r < |rows| ==> |rows[r]| == 4)
      && (forall r, j :: 0 <= r < |rows| && 0 <= j < |rows[r]| ==> Csv.WellFormed(rows[r][j]))
  {
    var rows := CsvTable(expenses, fmt);
    forall r | 0 <= r < |rows| ensures |rows[r]| == 4 && forall j :: 0 <= j < 4 ==> Csv.WellFormed(rows[r][j]) {
      TableRowWellFormed(expenses, fmt, r);
    }
  }

  lemma TableRowWellFormed(expenses: seq<Expense>, fmt: AmountFormat, r: nat)
    requires forall i :: 0 <= i < |expenses| ==> CsvSafeDate(expenses[i].date)
    requires r <= |expenses|
    ensures var row := CsvTable(expenses, fmt)[r];
      |row| == 4 && forall j :: 0 <= j < 4 ==> Csv.WellFormed(row[j])
  {
    if r == 0 {
      assert CsvTable(expenses, fmt)[0] == HeaderCells;
      HeaderWellFormed();
    } else {
      TableRowIsRow(expenses, fmt, r);
      CsvRowWellFormed(expenses[r - 1], fmt);
    }
  }

  /** Row `r` of the table, after the header, is the row of record `r - 1`. */
  lemma TableRowIsRow(expenses: seq<Expense>, fmt: AmountFormat, r: nat)
    requires 1 <= r <= |expenses|
    ensures CsvTable(expenses, fmt)[r] == CsvRow(expenses[r - 1], fmt)
  {
  }

  lemma HeaderWellFormed()
    ensures |HeaderCells| == 4 && forall j :: 0 <= j < 4 ==> Csv.WellFormed(HeaderCells[j])
  {
  }

  lemma HeaderTexts()
    ensures Csv.Texts(HeaderCells) == Header
  {
  }

  /** The header cells written out: `Date,Category,Amount,Description`. */
  lemma HeaderLine()
    ensures Csv.RenderRow(HeaderCells) == "Date" + "," + "Category" + "," + "Amount" + "," + "Description"
  {
    assert Csv.RenderRow(HeaderCells) == Join(Header, ',') by {
      assert seq(4, i requires 0 <= i < 4 => Csv.Render(HeaderCells[i])) == Header;
    }
    HeaderJoin();
  }

  lemma HeaderJoin()
    ensures Join(Header, ',') == "Date" + "," + "Category" + "," + "Amount" + "," + "Description"
  {
    JoinFour(Header, ',');
  }

  /**
   * Reading the written table back gives the header, then for each record,
   * in order: its export date, its category name, an amount that reads
   * back as the record's amount, and its description exactly.
   */
  lemma CsvTableRoundTrip(expenses: seq<Expense>, fmt: AmountFormat)
    requires forall i :: 0 <= i < |expenses| ==> CsvSafeDate(expenses[i].date)
    ensures Csv.Parse(Csv.Document(CsvTable(expenses, fmt))) == Some(TableTexts(expenses, fmt))
    ensures forall i :: 0 <= i < |expenses| ==> ParseCents(RowTexts(expenses[i], fmt)[2]) == Some(expenses[i].amount)
  {
    var rows := CsvTable(expenses, fmt);
    CsvTableWellFormed(expenses, fmt);
    Csv.DocumentRoundTrip(rows);
    CsvTableTexts(expenses, fmt);
    forall i | 0 <= i < |expenses| ensures ParseCents(RowTexts(expenses[i], fmt)[2]) == Some(expenses[i].amount) {
      AmountReadsBack(fmt, expenses[i].amount);
    }
  }

  /** What a reader should get back: the header, then each record's four field texts. */
  function TableTexts(expenses: seq<Expense>, fmt: AmountFormat): seq<seq<string>>
  {
    [Header] + seq(|expenses|, i requires 0 <= i < |expenses| => RowTexts(expenses[i], fmt))
  }

  lemma CsvTableTexts(expenses: seq<Expense>, fmt: AmountFormat)
    ensures Csv.AllTexts(CsvTable(expenses, fmt)) == TableTexts(expenses, fmt)
  {
    var rows := CsvTable(expenses, fmt);
    var texts := Csv.AllTexts(rows);
    var want := TableTexts(expenses, fmt);
    forall i | 0 <= i < |texts| ensures texts[i] == want[i] {
      if i == 0 {
        HeaderTextsAt(expenses, fmt);
      } else {
        RowTextsAt(expenses, fmt, i - 1);
      }
    }
  }

  lemma HeaderTextsAt(expenses: seq<Expense>, fmt: AmountFormat)
    ensures Csv.AllTexts(CsvTable(expenses, fmt))[0] == TableTexts(expenses, fmt)[0]
  {
    assert CsvTable(expenses, fmt)[0] == HeaderCells;
    HeaderTexts();
  }

  lemma RowTextsAt(expenses: seq<Expense>, fmt: AmountFormat, i: nat)
    requires i < |expenses|
    ensures Csv.AllTexts(CsvTable(expenses, fmt))[i + 1] == RowTexts(expenses[i], fmt)
  {
    var rows := CsvTable(expenses, fmt);
    assert rows[i + 1] == CsvRow(expenses[i], fmt);
    CsvRowTexts(expenses[i], fmt);
  }

  /** The four field texts of a record's row. */
  function RowTexts(e: Expense, fmt: AmountFormat): seq<string>
  {
    [FormatDate(e.date, YearMonthDay), CategoryName(e.category), AmountText(fmt, e.amount), e.description]
  }

  lemma CsvRowTexts(e: Expense, fmt: AmountFormat)
    ensures Csv.Texts(CsvRow(e, fmt)) == RowTexts(e, fmt)
  {
  }

  /** With no records the helpers' CSV is the header line alone. */
  lemma ExportToCsvEmpty()
    ensures ExportToCsv([]) == "Date" + "," + "Category" + "," + "Amount" + "," + "Description"
  {
    assert CsvTable([], ShortestForm) == [HeaderCells];
    assert Csv.Document([HeaderCells]) == Csv.RenderRow(HeaderCells);
    HeaderLine();
  }

  // ---- colour and icon tables ----

  function CategoryColor(c: Category): string
  {
    match c
    case Food => "bg-green-500"
    case Transportation => "bg-blue-500"
    case Entertainment => "bg-purple-500"
    case Shopping => "bg-pink-500"
    case Bills => "bg-red-500"
    case Other => "bg-gray-500"
  }

  function CategoryIcon(c: Category): string
  {
    match c
    case Food => "\U{1F354}"
    case Transportation => "\U{1F697}"
    case Entertainment => "\U{1F3AC}"
    case Shopping => "\U{1F6CD}\U{FE0F}"
    case Bills => "\U{1F4B3}"
    case Other => "\U{1F4CC}"
  }

  /** Both tables are total, and no two categories share a colour or an icon. */
  lemma CategoryTablesDistinct(c: Category, d: Category)
    ensures CategoryColor(c) != [] && CategoryIcon(c) != []
    ensures c != d ==> CategoryColor(c) != CategoryColor(d) && CategoryIcon(c) != CategoryIcon(d)
  {
  }
}
