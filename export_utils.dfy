/**
 * The content-building halves of the three exporters: the CSV text (amounts
 * printed with `toFixed(2)`), the JSON envelope, and the PDF report with its
 * table rows and its "Page i of N" footers. Handing the content to the
 * browser (Blob, download link, `doc.save`) is not modelled.
 */
module ExportUtils {
  import opened Wrappers
  import opened Text
  import opened Money
  import opened Dates
  import opened Expenses
  import opened Helpers
  import Csv

  // ---- formatExportDate ----

  /** `format(parseISO(s), 'yyyy-MM-dd')`, or `s` itself when that throws. */
  function FormatExportDate(s: string): string
  {
    FormatDate(s, YearMonthDay)
  }

  /**
   * A parseable date comes out as `yyyy-MM-dd` for the same month and day
   * of the era year (the same day from year 1 on); anything else comes out
   * unchanged.
   */
  lemma FormatExportDateSpec(s: string)
    ensures ParseIso(s).None? ==> FormatExportDate(s) == s
    ensures ParseIso(s).Some? ==>
      var r, d := FormatExportDate(s), ParseIso(s).value;
      && |r| == 10 && r[4] == '-' && r[7] == '-'
      && ParseIso(r) == MakeDate(EraYear(d.year), d.month, d.day)
      && (d.year >= 1 ==> ParseIso(r) == ParseIso(s))
  {
    FormatDateFallback(s, YearMonthDay);
  }

  // ---- exportToCSV: the content ----

  /** The text `exportToCSV` hands to the download: header line, then one line per record. */
  function CsvContent(expenses: seq<Expense>): string
  {
    Csv.Document(CsvTable(expenses, TwoDecimals))
  }

  /** The four fields written for one record. */
  function ExportedFields(e: Expense): seq<string>
  {
    [FormatExportDate(e.date), CategoryName(e.category), ToFixed2(e.amount), e.description]
  }

  /**
   * Reading the CSV back gives the header and then, for each record in
   * input order, its export date, category, two-decimal amount and its
   * description exactly (the doubled quotes undone).
   */
  lemma CsvContentRoundTrip(expenses: seq<Expense>)
    requires forall i :: 0 <= i < |expenses| ==> CsvSafeDate(expenses[i].date)
    ensures Csv.Parse(CsvContent(expenses))
      == Some([Header] + seq(|expenses|, i requires 0 <= i < |expenses| => ExportedFields(expenses[i])))
  {
    CsvTableRoundTrip(expenses, TwoDecimals);
    assert TableTexts(expenses, TwoDecimals)
      == [Header] + seq(|expenses|, i requires 0 <= i < |expenses| => ExportedFields(expenses[i]));
  }

  /** The amount column always holds exactly two decimals, and it reads back as the record's amount. */
  lemma AmountColumn(e: Expense)
    ensures var a := ExportedFields(e)[2];
      && |a| >= 4 && a[|a| - 3] == '.' && IsDigit(a[|a| - 2]) && IsDigit(a[|a| - 1])
      && ParseCents(a) == Some(e.amount)
  {
    ToFixed2RoundTrip(e.amount);
  }

  /** With no records the CSV is the header line alone. */
  lemma CsvContentEmpty()
    ensures CsvContent([]) == "Date" + "," + "Category" + "," + "Amount" + "," + "Description"
  {
    assert CsvTable([], TwoDecimals) == [HeaderCells];
    assert Csv.Document([HeaderCells]) == Csv.RenderRow(HeaderCells);
    HeaderLine();
  }

  // ---- exportToJSON: the envelope ----

  /** The object `exportToJSON` serialises; its text layout is not modelled. */
  datatype ExportData = ExportData(exportDate: string, totalRecords: nat, totalAmount: int, expenses: seq<Expense>)

  /**
   * The envelope for `expenses`, stamped with the caller's ISO time: it
   * carries every record unchanged and in order, and its count and sum
   * agree with the records it carries.
   */
  function JsonEnvelope(expenses: seq<Expense>, nowIso: string): (d: ExportData)
    ensures d.expenses == expenses && d.exportDate == nowIso
    ensures d.totalRecords == |d.expenses| && d.totalAmount == Total(d.expenses)
  {
    ExportData(nowIso, |expenses|, Total(expenses), expenses)
  }

  /** Exporting nothing is not an error: zero records, total zero. */
  lemma JsonEnvelopeEmpty(nowIso: string)
    ensures var d := JsonEnvelope([], nowIso);
      d.totalRecords == 0 && d.totalAmount == 0 && d.expenses == []
  {
  }

  /** Exporting the concatenation of two lists adds their counts and their totals. */
  lemma JsonEnvelopeAppend(a: seq<Expense>, b: seq<Expense>, nowIso: string)
    ensures JsonEnvelope(a + b, nowIso).totalRecords
         == JsonEnvelope(a, nowIso).totalRecords + JsonEnvelope(b, nowIso).totalRecords
    ensures JsonEnvelope(a + b, nowIso).totalAmount
         == JsonEnvelope(a, nowIso).totalAmount + JsonEnvelope(b, nowIso).totalAmount
  {
    TotalAppend(a, b);
  }

  // ---- exportToPDF ----

  /** One table row: date, category, `$` and the two-decimal amount, description. */
  function PdfRow(e: Expense): seq<string>
  {
    [FormatExportDate(e.date), CategoryName(e.category), "$" + ToFixed2(e.amount), e.description]
  }

  function PdfTable(expenses: seq<Expense>): (rows: seq<seq<string>>)
    ensures |rows| == |expenses|
  {
    seq(|expenses|, i requires 0 <= i < |expenses| => PdfRow(expenses[i]))
  }

  /** The amount a table row shows, read back; 0 for a row without one. */
  function ShownAmount(row: seq<string>): int
  {
    if |row| >= 3 && |row[2]| >= 1 && row[2][0] == '$' then
      match ParseCents(row[2][1..])
      case Some(c) => c
      case None => 0
    else 0
  }

  /** The sum of the amounts a table shows. */
  function ShownTotal(rows: seq<seq<string>>): int
  {
    if rows == [] then 0 else ShownTotal(rows[..|rows| - 1]) + ShownAmount(rows[|rows| - 1])
  }

  /**
   * Row `i` of the table is built from record `i`: its export date, its
   * category, `$` followed by the `toFixed(2)` text of its amount (two
   * digits after the point, reading back as the amount), and its
   * description.
   */
  lemma PdfRowSpec(expenses: seq<Expense>, i: nat)
    requires i < |expenses|
    ensures var row, e := PdfTable(expenses)[i], expenses[i];
      && |row| == 4 && row[0] == FormatExportDate(e.date) && row[1] == CategoryName(e.category)
      && |row[2]| >= 5 && row[2][0] == '$'
      && row[2][|row[2]| - 3] == '.' && IsDigit(row[2][|row[2]| - 2]) && IsDigit(row[2][|row[2]| - 1])
      && ParseCents(row[2][1..]) == Some(e.amount) && ShownAmount(row) == e.amount
      && row[3] == e.description
  {
    var e := expenses[i];
    var row := PdfTable(expenses)[i];
    assert row == PdfRow(e);
    assert row[2][1..] == ToFixed2(e.amount);
    ToFixed2RoundTrip(e.amount);
  }

  /** A record's row shows its amount. */
  lemma RowShowsAmount(e: Expense)
    ensures ShownAmount(PdfRow(e)) == e.amount
  {
    assert PdfRow(e)[2][1..] == ToFixed2(e.amount);
    ToFixed2RoundTrip(e.amount);
  }

  /** The "Total Amount" line and the table agree: the amounts shown in the rows add up to it. */
  lemma {:induction false} ShownTotalIsTotal(expenses: seq<Expense>)
    ensures ShownTotal(PdfTable(expenses)) == Total(expenses)
  {
    if expenses != [] {
      var n := |expenses| - 1;
      assert PdfTable(expenses)[..n] == PdfTable(expenses[..n]);
      ShownTotalIsTotal(expenses[..n]);
      RowShowsAmount(expenses[n]);
    }
  }

  /** A text drawn on a page of the document. */
  datatype PlacedText = PlacedText(page: nat, text: string)

  function FooterText(i: nat, n: nat): string
  {
    "Page " + NatToString(i) + " of " + NatToString(n)
  }

  /** The footers the loop writes, one per page, first page first. */
  function Footers(n: nat): seq<PlacedText>
  {
    seq(n, k requires 0 <= k < n => PlacedText(k + 1, FooterText(k + 1, n)))
  }

  /**
   * Every page from 1 to n gets a footer naming it; the footers go in
   * strictly increasing page order, so no page gets two.
   */
  lemma FootersOncePerPage(n: nat)
    ensures |Footers(n)| == n
    ensures forall p :: 1 <= p <= n ==> PlacedText(p, FooterText(p, n)) in Footers(n)
    ensures forall k :: 0 <= k < n ==> 1 <= Footers(n)[k].page <= n
    ensures forall k, l :: 0 <= k < l < n ==> Footers(n)[k].page < Footers(n)[l].page
  {
    var f := Footers(n);
    forall p | 1 <= p <= n ensures PlacedText(p, FooterText(p, n)) in f {
      assert f[p - 1] == PlacedText(p, FooterText(p, n));
    }
  }

  /** Reads a footer text back as its page number and page count. */
  function ParseFooter(s: string): Option<(nat, nat)>
  {
    if |s| < 5 || s[..5] != "Page " then None
    else
      var rest := s[5..];
      var k := DigitRun(rest);
      var count := rest[k..];
      if k == 0 || |count| < 5 || count[..4] != " of " || !AllDigits(count[4..]) then None
      else Some((ParseDigits(rest[..k]), ParseDigits(count[4..])))
  }

  /** A footer text names its page and the page count, so different pages never share one. */
  lemma FooterRoundTrip(i: nat, n: nat)
    ensures ParseFooter(FooterText(i, n)) == Some((i, n))
  {
    ParseFooterOf(NatToString(i), NatToString(n));
  }

  /** `Page <a> of <b>` reads back as the two digit strings' values. */
  lemma ParseFooterOf(a: string, b: string)
    requires a != [] && AllDigits(a) && b != [] && AllDigits(b)
    ensures ParseFooter("Page " + a + " of " + b) == Some((ParseDigits(a), ParseDigits(b)))
  {
    var rest := a + (" of " + b);
    var s := "Page " + a + " of " + b;
    assert s == "Page " + rest;
    assert s[..5] == "Page " && s[5..] == rest;
    DigitRunStops(a, " of " + b);
    assert rest[..|a|] == a;
    assert rest[|a|..] == " of " + b;
  }

  lemma DigitRunStops(a: string, x: string)
    requires AllDigits(a) && x != [] && !IsDigit(x[0])
    ensures DigitRun(a + x) == |a|
  {
    var s := a + x;
    assert s[..|a|] == a && s[|a|] == x[0];
    var k := DigitRun(s);
    if k > |a| {
      assert false;
    } else if k < |a| {
      assert false;
    }
  }

  /**
   * The jsPDF document the report is drawn into: the texts placed so far,
   * the table handed to autoTable, and the page the next text goes on.
   */
  class PdfDocument {
    var pageCount: nat
    var currentPage: nat
    var texts: seq<PlacedText>
    var table: seq<seq<string>>

    predicate Valid()
      reads this
    {
      1 <= currentPage <= pageCount
    }

    /** `new jsPDF()`: one empty page. */
    constructor ()
      ensures Valid() && pageCount == 1 && currentPage == 1
      ensures texts == [] && table == []
    {
      pageCount := 1;
      currentPage := 1;
      texts := [];
      table := [];
    }

    /** `doc.text(s, …)`: draws on the current page. */
    method Text(s: string)
      modifies this
      ensures texts == old(texts) + [PlacedText(currentPage, s)]
      ensures pageCount == old(pageCount) && currentPage == old(currentPage) && table == old(table)
    {
      texts := texts + [PlacedText(currentPage, s)];
    }

    /** `doc.setPage(i)`. */
    method SetPage(i: nat)
      requires 1 <= i <= pageCount
      modifies this
      ensures currentPage == i
      ensures pageCount == old(pageCount) && texts == old(texts) && table == old(table)
    {
      currentPage := i;
    }

    /**
     * `autoTable(doc, …)`: lays the rows out over `pages` pages in all (a
     * layout result taken as given) and leaves the last one current.
     */
    method AutoTable(rows: seq<seq<string>>, pages: nat)
      requires Valid() && pages >= pageCount
      modifies this
      ensures Valid() && table == rows && pageCount == pages && currentPage == pages
      ensures texts == old(texts)
    {
      table := rows;
      pageCount := pages;
      currentPage := pages;
    }

    /** The footer loop: `Page i of N` on every page i from 1 to N, in that order. */
    method AddFooters()
      requires Valid()
      modifies this
      ensures Valid() && texts == old(texts) + Footers(pageCount)
      ensures pageCount == old(pageCount) && table == old(table) && currentPage == pageCount
    {
      var i := 1;
      while i <= pageCount
        invariant 1 <= i <= pageCount + 1
        invariant 1 <= currentPage <= pageCount && (i > 1 ==> currentPage == i - 1)
        invariant texts == old(texts) + Footers(pageCount)[..i - 1]
        invariant pageCount == old(pageCount) && table == old(table)
      {
        SetPage(i);
        Text(FooterText(i, pageCount));
        assert Footers(pageCount)[..i] == Footers(pageCount)[..i - 1] + [PlacedText(i, FooterText(i, pageCount))];
        i := i + 1;
      }
      assert Footers(pageCount)[..pageCount] == Footers(pageCount);
    }
  }

  /** The metadata lines under the title; `generated` is the caller's formatted clock reading. */
  function ReportHeading(expenses: seq<Expense>, generated: string): seq<string>
  {
    ["Expense Report", "Generated: " + generated, "Total Records: " + NatToString(|expenses|),
     "Total Amount: $" + ToFixed2(Total(expenses))]
  }

  /** The heading lines, all drawn on page 1. */
  function HeadingTexts(expenses: seq<Expense>, generated: string): (t: seq<PlacedText>)
    ensures |t| == 4
    ensures forall k :: 0 <= k < 4 ==> t[k] == PlacedText(1, ReportHeading(expenses, generated)[k])
  {
    var h := ReportHeading(expenses, generated);
    [PlacedText(1, h[0]), PlacedText(1, h[1]), PlacedText(1, h[2]), PlacedText(1, h[3])]
  }

  /**
   * `exportToPDF` up to `doc.save`: title and metadata on page 1, the
   * table, then a footer on each of the `pages` pages the table took.
   */
  method ExportToPdf(expenses: seq<Expense>, generated: string, pages: nat) returns (doc: PdfDocument)
    requires pages >= 1
    ensures fresh(doc) && doc.Valid()
    ensures doc.table == PdfTable(expenses) && doc.pageCount == pages
    ensures doc.texts == HeadingTexts(expenses, generated) + Footers(pages)
  {
    doc := new PdfDocument();
    var heading := ReportHeading(expenses, generated);
    doc.Text(heading[0]);
    doc.Text(heading[1]);
    doc.Text(heading[2]);
    doc.Text(heading[3]);
    assert doc.texts == HeadingTexts(expenses, generated);
    doc.AutoTable(PdfTable(expenses), pages);
    doc.AddFooters();
  }

  /** The "Total Amount" line reads back as the sum the table rows show. */
  lemma HeadingTotalMatchesTable(expenses: seq<Expense>, generated: string)
    ensures var line := ReportHeading(expenses, generated)[3];
      |line| > 15 && line[..15] == "Total Amount: $" && ParseCents(line[15..]) == Some(ShownTotal(PdfTable(expenses)))
  {
    var line := ReportHeading(expenses, generated)[3];
    assert line[15..] == ToFixed2(Total(expenses));
    ToFixed2RoundTrip(Total(expenses));
    ShownTotalIsTotal(expenses);
  }
}
