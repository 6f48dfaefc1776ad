/**
 * Comma-separated text as both CSV exporters write it: fields joined by
 * `,`, records joined by `\n`, and a field wrapped in double quotes with
 * every inner quote doubled (the quoted-field rule of section 2 of
 * RFC 4180). `Parse` is a reader for that format; the round-trip lemmas
 * show that it recovers every field the writers put in.
 */
module Csv {
  import opened Wrappers
  import opened Text

  /** `s.replace(/"/g, '""')`. */
  function Escape(s: string): (r: string)
    ensures |r| >= |s|
  {
    if s == [] then []
    else (if s[0] == '"' then "\"\"" else [s[0]]) + Escape(s[1..])
  }

  /** A field written inside quotes. */
  function Quote(s: string): string
  {
    "\"" + Escape(s) + "\""
  }

  /** Text that can stand as a field without quotes. */
  predicate IsPlain(s: string)
  {
    forall i :: 0 <= i < |s| ==> s[i] != ',' && s[i] != '"' && s[i] != '\n' && s[i] != '\r'
  }

  lemma PlainConcat(a: string, b: string)
    ensures IsPlain(a + b) <==> IsPlain(a) && IsPlain(b)
  {
    if IsPlain(a) && IsPlain(b) {
      forall i | 0 <= i < |a + b| ensures (a + b)[i] != ',' && (a + b)[i] != '"' && (a + b)[i] != '\n' && (a + b)[i] != '\r' {
        if i >= |a| { assert (a + b)[i] == b[i - |a|]; }
      }
    }
    if IsPlain(a + b) {
      forall i | 0 <= i < |a| ensures a[i] != ',' && a[i] != '"' && a[i] != '\n' && a[i] != '\r' {
        assert a[i] == (a + b)[i];
      }
      forall i | 0 <= i < |b| ensures b[i] != ',' && b[i] != '"' && b[i] != '\n' && b[i] != '\r' {
        assert b[i] == (a + b)[i + |a|];
      }
    }
  }

  lemma DigitsArePlain(s: string)
    requires AllDigits(s)
    ensures IsPlain(s)
  {
  }

  /** How a field is written: as it is, or quoted. */
  datatype Cell = Plain(text: string) | Quoted(text: string)

  predicate WellFormed(c: Cell)
  {
    c.Plain? ==> IsPlain(c.text)
  }

  function Render(c: Cell): string
  {
    match c
    case Plain(t) => t
    case Quoted(t) => Quote(t)
  }

  /** `row.join(',')`. */
  function RenderRow(cells: seq<Cell>): string
  {
    Join(seq(|cells|, i requires 0 <= i < |cells| => Render(cells[i])), ',')
  }

  /** `rows.join('\n')`. */
  function Document(rows: seq<seq<Cell>>): string
  {
    Join(seq(|rows|, i requires 0 <= i < |rows| => RenderRow(rows[i])), '\n')
  }

  function Texts(cells: seq<Cell>): (r: seq<string>)
    ensures |r| == |cells| && forall i :: 0 <= i < |cells| ==> r[i] == cells[i].text
  {
    seq(|cells|, i requires 0 <= i < |cells| => cells[i].text)
  }

  // ---- Reader ----

  /** After an opening quote: the field's text up to the closing quote, and what follows it. */
  function ParseQuotedRest(s: string): (r: Option<(string, string)>)
    ensures r.Some? ==> |r.value.1| < |s|
    decreases |s|
  {
    if s == [] then None
    else if s[0] == '"' then
      if |s| >= 2 && s[1] == '"' then
        match ParseQuotedRest(s[2..])
        case Some((t, rest)) => Some(("\"" + t, rest))
        case None => None
      else
        Some(([], s[1..]))
    else
      match ParseQuotedRest(s[1..])
      case Some((t, rest)) => Some(([s[0]] + t, rest))
      case None => None
  }

  predicate IsSeparator(c: char) { c == ',' || c == '\n' }

  /** Length of an unquoted field: up to the first comma or line break. */
  function FieldEnd(s: string): (k: nat)
    ensures k <= |s|
    ensures forall i :: 0 <= i < k ==> !IsSeparator(s[i])
    ensures k < |s| ==> IsSeparator(s[k])
  {
    if s == [] || IsSeparator(s[0]) then 0 else 1 + FieldEnd(s[1..])
  }

  /** One field and the text after it; a quoted field must be followed by a separator or the end. */
  function ParseField(s: string): (r: Option<(string, string)>)
    ensures r.Some? ==> |r.value.1| <= |s|
    ensures r.Some? ==> r.value.1 == [] || IsSeparator(r.value.1[0])
  {
    if s != [] && s[0] == '"' then
      match ParseQuotedRest(s[1..])
      case Some((t, rest)) => if rest == [] || IsSeparator(rest[0]) then Some((t, rest)) else None
      case None => None
    else
      var k := FieldEnd(s);
      Some((s[..k], s[k..]))
  }

  /** One record's fields, up to a line break or the end. */
  function ParseRecord(s: string): (r: Option<(seq<string>, string)>)
    ensures r.Some? ==> |r.value.1| <= |s| && |r.value.0| >= 1
    ensures r.Some? ==> r.value.1 == [] || r.value.1[0] == '\n'
    decreases |s|
  {
    match ParseField(s)
    case None => None
    case Some((f, rest)) =>
      if rest != [] && rest[0] == ',' then
        match ParseRecord(rest[1..])
        case Some((fs, tail)) => Some(([f] + fs, tail))
        case None => None
      else
        Some(([f], rest))
  }

  /** The records of a whole text. */
  function Parse(s: string): Option<seq<seq<string>>>
    decreases |s|
  {
    match ParseRecord(s)
    case None => None
    case Some((rec, rest)) =>
      if rest == [] then Some([rec])
      else
        match Parse(rest[1..])
        case Some(recs) => Some([rec] + recs)
        case None => None
  }

  // ---- Round trips ----

  /** The reader undoes the quote doubling: it recovers the text exactly. */
  lemma {:induction false} QuotedRoundTrip(t: string, rest: string)
    requires rest == [] || rest[0] != '"'
    ensures ParseQuotedRest(Escape(t) + "\"" + rest) == Some((t, rest))
  {
    if t == [] {
      assert Escape(t) + "\"" + rest == "\"" + rest;
    } else {
      QuotedRoundTrip(t[1..], rest);
      if t[0] == '"' {
        QuotedStepQuote(t, rest);
      } else {
        QuotedStepOther(t, rest);
      }
    }
  }

  /** A doubled quote reads back as one quote character. */
  lemma QuotedStepQuote(t: string, rest: string)
    requires t != [] && t[0] == '"'
    requires ParseQuotedRest(Escape(t[1..]) + "\"" + rest) == Some((t[1..], rest))
    ensures ParseQuotedRest(Escape(t) + "\"" + rest) == Some((t, rest))
  {
    var s := Escape(t) + "\"" + rest;
    assert s == "\"\"" + (Escape(t[1..]) + "\"" + rest);
    assert s[2..] == Escape(t[1..]) + "\"" + rest;
    assert "\"" + t[1..] == t;
  }

  /** Any other character reads back as itself. */
  lemma QuotedStepOther(t: string, rest: string)
    requires t != [] && t[0] != '"'
    requires ParseQuotedRest(Escape(t[1..]) + "\"" + rest) == Some((t[1..], rest))
    ensures ParseQuotedRest(Escape(t) + "\"" + rest) == Some((t, rest))
  {
    var s := Escape(t) + "\"" + rest;
    assert s == [t[0]] + (Escape(t[1..]) + "\"" + rest);
    assert s[1..] == Escape(t[1..]) + "\"" + rest;
    assert [t[0]] + t[1..] == t;
  }

  lemma FieldRoundTrip(c: Cell, rest: string)
    requires WellFormed(c)
    requires rest == [] || IsSeparator(rest[0])
    ensures ParseField(Render(c) + rest) == Some((c.text, rest))
  {
    match c
    case Quoted(t) => QuotedFieldRoundTrip(t, rest);
    case Plain(t) => PlainFieldRoundTrip(t, rest);
  }

  lemma QuotedFieldRoundTrip(t: string, rest: string)
    requires rest == [] || IsSeparator(rest[0])
    ensures ParseField(Quote(t) + rest) == Some((t, rest))
  {
    var s := Quote(t) + rest;
    QuotedRoundTrip(t, rest);
    assert s[0] == '"';
    assert s[1..] == Escape(t) + "\"" + rest;
  }

  lemma PlainFieldRoundTrip(t: string, rest: string)
    requires IsPlain(t)
    requires rest == [] || IsSeparator(rest[0])
    ensures ParseField(t + rest) == Some((t, rest))
  {
    var s := t + rest;
    if t != [] {
      assert s[0] == t[0];
    } else if rest != [] {
      assert s[0] == rest[0];
    }
    FieldEndPlain(t, rest);
    assert s[..|t|] == t && s[|t|..] == rest;
  }

  lemma FieldEndPlain(t: string, rest: string)
    requires IsPlain(t)
    requires rest == [] || IsSeparator(rest[0])
    ensures FieldEnd(t + rest) == |t|
  {
    var s := t + rest;
    assert forall i :: 0 <= i < |t| ==> s[i] == t[i];
    if rest != [] {
      assert s[|t|] == rest[0];
    }
  }

  lemma RenderRowCons(cells: seq<Cell>)
    requires |cells| >= 2
    ensures RenderRow(cells) == Render(cells[0]) + [','] + RenderRow(cells[1..])
    ensures Texts(cells) == [cells[0].text] + Texts(cells[1..])
  {
    var parts := seq(|cells|, i requires 0 <= i < |cells| => Render(cells[i]));
    var tail := cells[1..];
    assert parts[1..] == seq(|tail|, i requires 0 <= i < |tail| => Render(tail[i]));
  }

  lemma DocumentCons(rows: seq<seq<Cell>>)
    requires |rows| >= 2
    ensures Document(rows) == RenderRow(rows[0]) + ("\n" + Document(rows[1..]))
  {
    var lines := seq(|rows|, r requires 0 <= r < |rows| => RenderRow(rows[r]));
    var tail := rows[1..];
    assert lines[1..] == seq(|tail|, r requires 0 <= r < |tail| => RenderRow(tail[r]));
  }

  function AllTexts(rows: seq<seq<Cell>>): (r: seq<seq<string>>)
    ensures |r| == |rows| && forall i :: 0 <= i < |rows| ==> r[i] == Texts(rows[i])
  {
    seq(|rows|, i requires 0 <= i < |rows| => Texts(rows[i]))
  }

  /** The reader returns the fields of a written record, in order. */
  lemma {:induction false} RecordRoundTrip(cells: seq<Cell>, rest: string)
    requires |cells| >= 1
    requires forall i :: 0 <= i < |cells| ==> WellFormed(cells[i])
    requires rest == [] || rest[0] == '\n'
    ensures ParseRecord(RenderRow(cells) + rest) == Some((Texts(cells), rest))
  {
    if |cells| == 1 {
      FieldRoundTrip(cells[0], rest);
      assert RenderRow(cells) == Render(cells[0]);
      assert Texts(cells) == [cells[0].text];
    } else {
      RecordRoundTrip(cells[1..], rest);
      RecordRoundTripStep(cells, rest);
    }
  }

  /** One more field in front of a record the reader already reads back. */
  lemma RecordRoundTripStep(cells: seq<Cell>, rest: string)
    requires |cells| >= 2 && WellFormed(cells[0])
    requires rest == [] || rest[0] == '\n'
    requires ParseRecord(RenderRow(cells[1..]) + rest) == Some((Texts(cells[1..]), rest))
    ensures ParseRecord(RenderRow(cells) + rest) == Some((Texts(cells), rest))
  {
    var tail := cells[1..];
    var after := RenderRow(tail) + rest;
    RenderRowConsRest(cells, rest);
    FieldRoundTrip(cells[0], [','] + after);
    ParseRecordComma(Render(cells[0]) + ([','] + after), cells[0].text, after, Texts(tail), rest);
  }

  /** `RenderRowCons` with the text after the row attached. */
  lemma RenderRowConsRest(cells: seq<Cell>, rest: string)
    requires |cells| >= 2
    ensures RenderRow(cells) + rest == Render(cells[0]) + ([','] + (RenderRow(cells[1..]) + rest))
    ensures Texts(cells) == [cells[0].text] + Texts(cells[1..])
  {
    RenderRowCons(cells);
    var a, b := Render(cells[0]), RenderRow(cells[1..]);
    assert a + [','] + b + rest == a + ([','] + (b + rest));
  }

  /** A field followed by a comma and a record reads as one record with that field in front. */
  lemma ParseRecordComma(s: string, f: string, after: string, fs: seq<string>, rest: string)
    requires ParseField(s) == Some((f, [','] + after))
    requires ParseRecord(after) == Some((fs, rest))
    ensures ParseRecord(s) == Some(([f] + fs, rest))
  {
    assert ([','] + after)[1..] == after;
  }

  /** The reader returns every record of a written document, in order. */
  lemma {:induction false} DocumentRoundTrip(rows: seq<seq<Cell>>)
    requires |rows| >= 1
    requires forall r :: 0 <= r < |rows| ==> |rows[r]| >= 1
    requires forall r, i :: 0 <= r < |rows| && 0 <= i < |rows[r]| ==> WellFormed(rows[r][i])
    ensures Parse(Document(rows)) == Some(AllTexts(rows))
  {
    if |rows| == 1 {
      RecordRoundTrip(rows[0], []);
      assert Document(rows) == RenderRow(rows[0]);
      assert RenderRow(rows[0]) + [] == RenderRow(rows[0]);
      assert AllTexts(rows) == [Texts(rows[0])];
    } else {
      var tail := rows[1..];
      DocumentRoundTrip(tail);
      DocumentCons(rows);
      RecordRoundTrip(rows[0], "\n" + Document(tail));
      assert ("\n" + Document(tail))[1..] == Document(tail);
      assert AllTexts(rows) == [Texts(rows[0])] + AllTexts(tail);
    }
  }
}
