/**
 * Amounts are integer cents, so the two ways the exporters print an amount
 * are exact: `Number.prototype.toFixed(2)` and `Number.prototype.toString()`
 * of a value with at most two decimals. `ParseCents` reads either form back.
 */
module Money {
  import opened Wrappers
  import opened Text

  function Abs(c: int): nat { if c < 0 then -c else c }

  function Sign(c: int): string { if c < 0 then "-" else "" }

  /** `amount.toFixed(2)`: sign, whole part, a point and exactly two decimals. */
  function ToFixed2(cents: int): (s: string)
    ensures var k := |s| - 3;
      k >= 0 && s[k] == '.' && IsDigit(s[k + 1]) && IsDigit(s[k + 2])
  {
    Sign(cents) + NatToString(Abs(cents) / 100) + "." + PadDigits(Abs(cents) % 100, 2)
  }

  /**
   * `amount.toString()`: the shortest decimal form; trailing fractional
   * zeros and a bare point are not printed.
   */
  function NumberToString(cents: int): string
  {
    Sign(cents) + ShortestUnsigned(Abs(cents))
  }

  /** The shortest form of a non-negative amount. */
  function ShortestUnsigned(a: nat): string
  {
    var whole := NatToString(a / 100);
    var frac := a % 100;
    whole +
      (if frac == 0 then ""
       else if frac % 10 == 0 then "." + [DigitChar(frac / 10)]
       else "." + PadDigits(frac, 2))
  }

  /** Position of the first `c` in `s`, or `|s|` when there is none. */
  function IndexOf(s: string, c: char): (k: nat)
    ensures k <= |s|
    ensures forall i :: 0 <= i < k ==> s[i] != c
    ensures k < |s| ==> s[k] == c
  {
    if s == [] then 0 else if s[0] == c then 0 else 1 + IndexOf(s[1..], c)
  }

  /** Reads an unsigned decimal with zero, one or two fractional digits as cents. */
  function ParseUnsignedCents(s: string): (r: Option<nat>)
  {
    var k := IndexOf(s, '.');
    var whole := s[..k];
    if whole == [] || !AllDigits(whole) then None
    else if k == |s| then Some(ParseDigits(whole) * 100)
    else
      var frac := s[k + 1..];
      if |frac| == 1 && IsDigit(frac[0]) then Some(ParseDigits(whole) * 100 + DigitValue(frac[0]) * 10)
      else if |frac| == 2 && AllDigits(frac) then Some(ParseDigits(whole) * 100 + ParseDigits(frac))
      else None
  }

  /** Reads an optionally negative decimal amount back into cents. */
  function ParseCents(s: string): (r: Option<int>)
  {
    if s != [] && s[0] == '-' then
      match ParseUnsignedCents(s[1..])
      case Some(v) => Some(0 - v)
      case None => None
    else
      match ParseUnsignedCents(s)
      case Some(v) => Some(v)
      case None => None
  }

  lemma IndexOfDigitsThenPoint(whole: string, rest: string)
    requires AllDigits(whole)
    ensures IndexOf(whole + "." + rest, '.') == |whole|
  {
    var s := whole + "." + rest;
    assert s[|whole|] == '.';
    assert forall i :: 0 <= i < |whole| ==> s[i] == whole[i];
  }

  lemma IndexOfDigits(whole: string)
    requires AllDigits(whole)
    ensures IndexOf(whole, '.') == |whole|
  {
  }

  lemma UnsignedRoundTrip(cents: nat, tail: string)
    requires tail == "" || (|tail| == 1 && IsDigit(tail[0]) && DigitValue(tail[0]) * 10 == cents % 100)
             || (|tail| == 2 && AllDigits(tail) && ParseDigits(tail) == cents % 100)
    requires tail == "" ==> cents % 100 == 0
    ensures var text := if tail == "" then NatToString(cents / 100) else NatToString(cents / 100) + "." + tail;
      ParseUnsignedCents(text) == Some(cents)
  {
    var whole := NatToString(cents / 100);
    if tail == "" {
      IndexOfDigits(whole);
      assert whole[..|whole|] == whole;
    } else {
      var text := whole + "." + tail;
      IndexOfDigitsThenPoint(whole, tail);
      assert text[..|whole|] == whole;
      assert text[|whole| + 1..] == tail;
    }
  }

  lemma SignedRoundTrip(cents: int, body: string)
    requires body != [] && IsDigit(body[0])
    requires ParseUnsignedCents(body) == Some(Abs(cents))
    ensures ParseCents(Sign(cents) + body) == Some(cents)
  {
    if cents < 0 {
      assert (Sign(cents) + body)[1..] == body;
    } else {
      assert Sign(cents) + body == body && body[0] != '-';
    }
  }

  /** Reading back what `toFixed(2)` printed gives the exact amount. */
  lemma ToFixed2RoundTrip(cents: int)
    ensures ParseCents(ToFixed2(cents)) == Some(cents)
  {
    var a := Abs(cents);
    var whole := NatToString(a / 100);
    var tail := PadDigits(a % 100, 2);
    UnsignedRoundTrip(a, tail);
    var body := whole + "." + tail;
    assert body[0] == whole[0];
    assert ToFixed2(cents) == Sign(cents) + body;
    SignedRoundTrip(cents, body);
  }

  /** The shortest form starts with a digit and reads back as the amount. */
  lemma ShortestRoundTrip(a: nat)
    ensures var s := ShortestUnsigned(a);
      s != [] && IsDigit(s[0]) && ParseUnsignedCents(s) == Some(a)
  {
    var frac := a % 100;
    var whole := NatToString(a / 100);
    var tail := if frac == 0 then "" else if frac % 10 == 0 then [DigitChar(frac / 10)] else PadDigits(frac, 2);
    UnsignedRoundTrip(a, tail);
    var body := if tail == "" then whole else whole + "." + tail;
    assert ShortestUnsigned(a) == body;
    assert body[0] == whole[0];
  }

  /** Reading back what `toString()` printed gives the exact amount. */
  lemma NumberToStringRoundTrip(cents: int)
    ensures ParseCents(NumberToString(cents)) == Some(cents)
  {
    ShortestRoundTrip(Abs(cents));
    SignedRoundTrip(cents, ShortestUnsigned(Abs(cents)));
  }
}
