/**
 * Calendar dates as the exporters and filters see them. A date string is
 * read by `ParseIso`, which accepts the calendar forms `YYYY`, `YYYY-MM`
 * and `YYYY-MM-DD` and rejects impossible months and days, as date-fns
 * `parseISO` does by returning an invalid date. The list view's sort key
 * comes from `new Date(string)`, which the model reads by the same rules;
 * engines differ there (V8 rolls `2023-02-30` over to 2 March and guesses
 * at other text), and that is not modelled.
 */
module Dates {
  import opened Wrappers
  import opened Text

  datatype Date = Date(year: nat, month: nat, day: nat)

  predicate IsLeapYear(y: nat)
  {
    (y % 4 == 0 && y % 100 != 0) || y % 400 == 0
  }

  function DaysInMonth(y: nat, m: nat): (n: nat)
    requires 1 <= m <= 12
    ensures 28 <= n <= 31
  {
    if m == 2 then (if IsLeapYear(y) then 29 else 28)
    else if m == 4 || m == 6 || m == 9 || m == 11 then 30
    else 31
  }

  /** A date a four-digit year can name. */
  predicate ValidDate(d: Date)
  {
    d.year <= 9999 && 1 <= d.month <= 12 && 1 <= d.day <= DaysInMonth(d.year, d.month)
  }

  function MakeDate(y: nat, m: nat, day: nat): Option<Date>
  {
    if 1 <= m <= 12 && 1 <= day <= DaysInMonth(y, m) then Some(Date(y, m, day)) else None
  }

  /** Reads a calendar date; `None` is JavaScript's invalid date. */
  function ParseIso(s: string): (r: Option<Date>)
    ensures r.Some? ==> ValidDate(r.value)
  {
    assert Pow10(4) == 10000;
    if |s| == 4 && AllDigits(s) then
      MakeDate(ParseDigits(s), 1, 1)
    else if |s| == 7 && AllDigits(s[..4]) && s[4] == '-' && AllDigits(s[5..]) then
      MakeDate(ParseDigits(s[..4]), ParseDigits(s[5..]), 1)
    else if |s| == 10 && AllDigits(s[..4]) && s[4] == '-' && AllDigits(s[5..7]) && s[7] == '-'
            && AllDigits(s[8..]) then
      MakeDate(ParseDigits(s[..4]), ParseDigits(s[5..7]), ParseDigits(s[8..]))
    else
      None
  }

  /**
   * The year date-fns writes for the `yyyy` token: the year of the era,
   * so year 0 (1 BC) is written as year 1.
   */
  function EraYear(y: nat): (e: nat)
    ensures 1 <= e && (y >= 1 ==> e == y)
  {
    if y == 0 then 1 else y
  }

  /** date-fns `format(d, 'yyyy-MM-dd')`. */
  function FormatYmd(d: Date): (s: string)
    requires ValidDate(d)
    ensures |s| == 10 && s[4] == '-' && s[7] == '-'
  {
    assert Pow10(4) == 10000;
    PadDigits(EraYear(d.year), 4) + "-" + PadDigits(d.month, 2) + "-" + PadDigits(d.day, 2)
  }

  /** date-fns `format(d, 'yyyy-MM')`. */
  function FormatYearMonth(d: Date): (s: string)
    requires ValidDate(d)
    ensures |s| == 7 && s[4] == '-'
  {
    assert Pow10(4) == 10000;
    PadDigits(EraYear(d.year), 4) + "-" + PadDigits(d.month, 2)
  }

  /** The `MMM` token: English month abbreviations. */
  function MonthAbbrev(m: nat): (s: string)
    requires 1 <= m <= 12
    ensures |s| == 3
  {
    ["Jan", "Feb", "Mar", "Apr", "May", "Jun", "Jul", "Aug", "Sep", "Oct", "Nov", "Dec"][m - 1]
  }

  /** date-fns `format(d, 'MMM dd, yyyy')`, the default display pattern. */
  function FormatMonthDayYear(d: Date): (s: string)
    requires ValidDate(d)
    ensures |s| == 12
  {
    assert Pow10(4) == 10000;
    MonthAbbrev(d.month) + " " + PadDigits(d.day, 2) + ", " + PadDigits(EraYear(d.year), 4)
  }

  /**
   * Formatting then parsing a date gives the day with its era year: the
   * date itself from year 1 on, and for year 0 the same month and day of
   * year 1, which does not exist when the day is February 29.
   */
  lemma FormatYmdRoundTrip(d: Date)
    requires ValidDate(d)
    ensures ParseIso(FormatYmd(d)) == MakeDate(EraYear(d.year), d.month, d.day)
    ensures d.year >= 1 ==> ParseIso(FormatYmd(d)) == Some(d)
  {
    var s := FormatYmd(d);
    assert s[..4] == PadDigits(EraYear(d.year), 4);
    assert s[5..7] == PadDigits(d.month, 2);
    assert s[8..] == PadDigits(d.day, 2);
  }

  /** The leap day of year 0 is written as a day year 1 does not have, so it does not read back. */
  lemma YearZeroLeapDayLost()
    ensures ValidDate(Date(0, 2, 29))
    ensures ParseIso(FormatYmd(Date(0, 2, 29))) == None
  {
    assert IsLeapYear(0) && !IsLeapYear(1);
    FormatYmdRoundTrip(Date(0, 2, 29));
  }

  /**
   * A date already written as `YYYY-MM-DD` is reformatted to the same
   * text, except that a year `0000` comes out as `0001`.
   */
  lemma CanonicalDateUnchanged(s: string)
    requires |s| == 10 && ParseIso(s).Some?
    ensures FormatYmd(ParseIso(s).value) == if s[..4] == "0000" then "0001" + s[4..] else s
  {
    var d := ParseIso(s).value;
    ReadTenCharacters(s);
    var y := s[..4];
    var t := if y == "0000" then "0001" + s[4..] else s;
    var f := FormatYmd(d);
    FormatYmdParts(d);
    assert f[5..7] == s[5..7] by { PadParseDigits(s[5..7]); }
    assert f[8..] == s[8..] by { PadParseDigits(s[8..]); }
    assert f[..4] == t[..4] by { YearDigits(y); }
    assert t[5..7] == s[5..7] && t[8..] == s[8..] && t[4] == '-' && t[7] == '-' && |t| == 10;
    TenEqual(f, t);
  }

  /** The `yyyy-MM-dd` text, piece by piece. */
  lemma FormatYmdParts(d: Date)
    requires ValidDate(d)
    ensures var f := FormatYmd(d);
      && f[..4] == PadDigits(EraYear(d.year), 4) && f[5..7] == PadDigits(d.month, 2)
      && f[8..] == PadDigits(d.day, 2)
  {
    assert Pow10(4) == 10000;
    var a, b, c := PadDigits(EraYear(d.year), 4), PadDigits(d.month, 2), PadDigits(d.day, 2);
    var f := FormatYmd(d);
    assert f == a + "-" + b + "-" + c;
    assert forall i :: 0 <= i < 4 ==> f[i] == a[i];
    assert forall i :: 0 <= i < 2 ==> f[5 + i] == b[i] && f[8 + i] == c[i];
    assert f[..4] == a && f[5..7] == b && f[8..] == c;
  }

  /** Two ten-character dashed texts agree when their three digit groups do. */
  lemma TenEqual(a: string, b: string)
    requires |a| == 10 && |b| == 10 && a[4] == b[4] && a[7] == b[7]
    requires a[..4] == b[..4] && a[5..7] == b[5..7] && a[8..] == b[8..]
    ensures a == b
  {
    forall i | 0 <= i < 10 ensures a[i] == b[i] {
      if i < 4 {
        assert a[i] == a[..4][i] && b[i] == b[..4][i];
      } else if 5 <= i < 7 {
        assert a[i] == a[5..7][i - 5] && b[i] == b[5..7][i - 5];
      } else if 8 <= i {
        assert a[i] == a[8..][i - 8] && b[i] == b[8..][i - 8];
      }
    }
  }

  /** What a ten-character text that parses is made of. */
  lemma ReadTenCharacters(s: string)
    requires |s| == 10 && ParseIso(s).Some?
    ensures AllDigits(s[..4]) && AllDigits(s[5..7]) && AllDigits(s[8..]) && s[4] == '-' && s[7] == '-'
    ensures ParseIso(s).value == Date(ParseDigits(s[..4]), ParseDigits(s[5..7]), ParseDigits(s[8..]))
  {
  }

  /** Re-padding a four-digit year with its era year. */
  lemma YearDigits(y: string)
    requires |y| == 4 && AllDigits(y)
    ensures PadDigits(EraYear(ParseDigits(y)), 4) == if y == "0000" then "0001" else y
  {
    PadParseDigits(y);
    SmallPads();
    if y == "0000" {
      assert ParseDigits(y) == 0 by {
        assert y[..3] == "000" && y[..3][..2] == "00" && y[..3][..2][..1] == "0";
      }
    } else {
      assert ParseDigits(y) != 0;
    }
  }

  lemma SmallPads()
    ensures PadDigits(0, 4) == "0000" && PadDigits(1, 4) == "0001"
  {
    assert PadDigits(0, 0) == [];
    assert PadDigits(0, 1) == [] + ['0'];
    assert PadDigits(0, 2) == "0" + ['0'];
    assert PadDigits(0, 3) == "00" + ['0'];
    assert PadDigits(0, 4) == "000" + ['0'];
    assert PadDigits(1, 4) == "000" + ['1'];
  }

  /** Chronological order of valid dates. */
  predicate Before(a: Date, b: Date)
  {
    a.year < b.year || (a.year == b.year && (a.month < b.month || (a.month == b.month && a.day < b.day)))
  }

  /** A number that orders dates as the time value of their midnights does. */
  function DateKey(d: Date): int
  {
    d.year * 10000 + d.month * 100 + d.day
  }

  lemma DateKeyOrder(a: Date, b: Date)
    requires ValidDate(a) && ValidDate(b)
    ensures DateKey(a) < DateKey(b) <==> Before(a, b)
    ensures DateKey(a) == DateKey(b) <==> a == b
  {
  }

  /** Months counted from January of year 0; consecutive months differ by one. */
  function MonthIndex(year: int, month: int): int
  {
    year * 12 + month - 1
  }
}
