/** The two date layouts the registry client reads with Go's `time.Parse` — "02.01.2006"
    (DD.MM.YYYY, the registry's XML statements) and "2006-01-02" (YYYY-MM-DD, the JSON person
    search) — and Go's `Format` of the second one, which the person search sends back.
    Only the calendar date is modelled: no clock time, no time zone. */
module TimeFormat {
  import opened Types
  import opened Calendar

  datatype ParseError = ParseError(value: string)

  // ---------------------------------------------------------------------------
  // Formatting: Go's time.appendInt

  function DigitChar(n: nat): (c: char)
    requires n < 10
    ensures IsDigit(c) && c as int - '0' as int == n
  {
    ('0' as int + n) as char
  }

  /** The decimal digits of `u`, without leading zeros. */
  function Decimal(u: nat): (r: string)
    ensures |r| >= 1 && AllDigits(r)
  {
    if u < 10 then [DigitChar(u)] else Decimal(u / 10) + [DigitChar(u % 10)]
  }

  function ZeroPad(s: string, width: nat): (r: string)
    ensures |r| >= |s| && |r| >= width
    decreases width - |s|
  {
    if |s| >= width then s else ZeroPad("0" + s, width)
  }

  /** Go's `appendInt(nil, x, width)`: a minus sign for negative values, then the magnitude in
      decimal, zero-padded to `width`; two- and four-digit fields are written digit by digit. */
  function AppendInt(x: int, width: nat): string
  {
    var sign := if x < 0 then "-" else "";
    var u: nat := if x < 0 then -x else x;
    sign +
      if width == 2 && u < 100 then [DigitChar(u / 10), DigitChar(u % 10)]
      else if width == 4 && u < 10000 then
        [DigitChar(u / 1000), DigitChar(u / 100 % 10), DigitChar(u / 10 % 10), DigitChar(u % 10)]
      else ZeroPad(Decimal(u), width)
  }

  /** `t.Format(time.DateOnly)`, the layout "2006-01-02". */
  function FormatIsoDate(d: Date): string
    requires Valid(d)
  {
    AppendInt(d.year, 4) + "-" + AppendInt(d.month, 2) + "-" + AppendInt(d.day, 2)
  }

  /** The text a date has in the layout "02.01.2006"; the program only ever parses this layout. */
  function DottedForm(d: Date): string
    requires Valid(d)
  {
    AppendInt(d.day, 2) + "." + AppendInt(d.month, 2) + "." + AppendInt(d.year, 4)
  }

  // ---------------------------------------------------------------------------
  // Parsing: Go's time.Parse for the two layouts. Each numeric field takes exactly its
  // width in ASCII digits, the separators must match, nothing may follow, the month must be
  // 1..12 and the day must exist in that month of that year.

  predicate DigitsAt(s: string, i: nat, n: nat)
  {
    i + n <= |s| && AllDigits(s[i..i + n])
  }

  function NumberAt(s: string, i: nat, n: nat): nat
    requires DigitsAt(s, i, n)
  {
    DigitsValue(s[i..i + n])
  }

  function Checked(year: int, month: int, day: int, s: string): (r: Result<Date, ParseError>)
    ensures r.Ok? <==> Valid(Date(year, month, day))
    ensures r.Ok? ==> r.value == Date(year, month, day)
  {
    if 1 <= month <= 12 && 1 <= day <= DaysIn(year, month) then Ok(Date(year, month, day))
    else Err(ParseError(s))
  }

  predicate IsoShaped(s: string)
  {
    |s| == 10 && DigitsAt(s, 0, 4) && s[4] == '-' && DigitsAt(s, 5, 2) && s[7] == '-' && DigitsAt(s, 8, 2)
  }

  predicate DottedShaped(s: string)
  {
    |s| == 10 && DigitsAt(s, 0, 2) && s[2] == '.' && DigitsAt(s, 3, 2) && s[5] == '.' && DigitsAt(s, 6, 4)
  }

  /** `time.Parse("2006-01-02", s)`. */
  function ParseIsoDate(s: string): Result<Date, ParseError>
  {
    if IsoShaped(s) then Checked(NumberAt(s, 0, 4), NumberAt(s, 5, 2), NumberAt(s, 8, 2), s)
    else Err(ParseError(s))
  }

  /** `time.Parse("02.01.2006", s)`. */
  function ParseDottedDate(s: string): Result<Date, ParseError>
  {
    if DottedShaped(s) then Checked(NumberAt(s, 6, 4), NumberAt(s, 3, 2), NumberAt(s, 0, 2), s)
    else Err(ParseError(s))
  }

  // ---------------------------------------------------------------------------
  // Fixed-width fields read back

  lemma TwoDigitField(n: nat)
    requires n < 100
    ensures AppendInt(n, 2) == [DigitChar(n / 10), DigitChar(n % 10)]
    ensures AllDigits(AppendInt(n, 2)) && DigitsValue(AppendInt(n, 2)) == n
  {
    var a, b := DigitChar(n / 10), DigitChar(n % 10);
    DigitsValueAppend([], a);
    assert [] + [a] == [a];
    DigitsValueAppend([a], b);
    assert [a] + [b] == AppendInt(n, 2);
  }

  lemma FourDigitField(n: nat)
    requires n < 10000
    ensures AppendInt(n, 4) == [DigitChar(n / 1000), DigitChar(n / 100 % 10), DigitChar(n / 10 % 10), DigitChar(n % 10)]
    ensures AllDigits(AppendInt(n, 4)) && DigitsValue(AppendInt(n, 4)) == n
  {
    var q1, r1 := n / 10, n % 10;
    var q2, r2 := q1 / 10, q1 % 10;
    var q3, r3 := q2 / 10, q2 % 10;
    DivMod(q2, 10 * r2 + r1, 100);
    DivMod(q3, 100 * r3 + 10 * r2 + r1, 1000);
    var a, b, c, d := DigitChar(q3), DigitChar(r3), DigitChar(r2), DigitChar(r1);
    assert AppendInt(n, 4) == [a, b, c, d];
    DigitsValueAppend([], a);
    assert [] + [a] == [a];
    DigitsValueAppend([a], b);
    assert [a] + [b] == [a, b];
    DigitsValueAppend([a, b], c);
    assert [a, b] + [c] == [a, b, c];
    DigitsValueAppend([a, b, c], d);
    assert [a, b, c] + [d] == [a, b, c, d];
  }

  function DigitOf(c: char): int
  {
    c as int - '0' as int
  }

  lemma TwoDigitText(s: string)
    requires |s| == 2 && AllDigits(s)
    ensures DigitsValue(s) < 100 && AppendInt(DigitsValue(s), 2) == s
  {
    var a, b := DigitOf(s[0]), DigitOf(s[1]);
    TwoDigitValue(s);
    var n := DigitsValue(s);
    DivMod(a, b, 10);
    TwoDigitField(n);
    assert DigitChar(a) == s[0] && DigitChar(b) == s[1];
  }

  lemma TwoDigitValue(s: string)
    requires |s| == 2 && AllDigits(s)
    ensures DigitsValue(s) == DigitOf(s[0]) * 10 + DigitOf(s[1])
  {
    DigitsValueAppend([], s[0]);
    assert [] + [s[0]] == [s[0]];
    DigitsValueAppend([s[0]], s[1]);
    assert [s[0]] + [s[1]] == s;
  }

  /** The value of four digits, place by place. */
  lemma FourDigitValue(s: string)
    requires |s| == 4 && AllDigits(s)
    ensures DigitsValue(s) == DigitOf(s[0]) * 1000 + DigitOf(s[1]) * 100 + DigitOf(s[2]) * 10 + DigitOf(s[3])
  {
    DigitsValueAppend([], s[0]);
    assert [] + [s[0]] == [s[0]];
    DigitsValueAppend([s[0]], s[1]);
    assert [s[0]] + [s[1]] == s[..2];
    DigitsValueAppend(s[..2], s[2]);
    assert s[..2] + [s[2]] == s[..3];
    DigitsValueAppend(s[..3], s[3]);
    assert s[..3] + [s[3]] == s;
  }

  /** The four places of a value below 10000. */
  lemma FourPlaces(a: int, b: int, c: int, d: int)
    requires 0 <= a < 10 && 0 <= b < 10 && 0 <= c < 10 && 0 <= d < 10
    ensures var n := a * 1000 + b * 100 + c * 10 + d;
      n / 1000 == a && n / 100 % 10 == b && n / 10 % 10 == c && n % 10 == d
  {
    DivMod(a, b * 100 + c * 10 + d, 1000);
    DivMod(a * 10 + b, c * 10 + d, 100);
    DivMod(a, b, 10);
    DivMod(a * 100 + b * 10 + c, d, 10);
    DivMod(a * 10 + b, c, 10);
  }

  lemma FourDigitText(s: string)
    requires |s| == 4 && AllDigits(s)
    ensures DigitsValue(s) < 10000 && AppendInt(DigitsValue(s), 4) == s
  {
    var a, b, c, d := DigitOf(s[0]), DigitOf(s[1]), DigitOf(s[2]), DigitOf(s[3]);
    FourDigitValue(s);
    FourPlaces(a, b, c, d);
    assert DigitChar(a) == s[0] && DigitChar(b) == s[1] && DigitChar(c) == s[2] && DigitChar(d) == s[3];
  }

  lemma DivMod(q: int, r: int, k: int)
    requires k > 0 && 0 <= r < k
    ensures (q * k + r) / k == q && (q * k + r) % k == r
  {
    var x := q * k + r;
    var e := x / k - q;
    assert e * k == r - x % k;
  }

  /** A field of four or more digits, or a negative value, never fits the four-character year field. */
  lemma {:induction false} LongYearField(y: int)
    requires y < 0 || y >= 10000
    ensures var t := AppendInt(y, 4); (y < 0 && |t| > 0 && t[0] == '-') || (|t| > 4 && IsDigit(t[4]))
  {
    if y >= 10000 {
      DecimalLength(y, 4);
      assert AppendInt(y, 4) == Decimal(y);
    }
  }

  lemma {:induction false} DecimalLength(u: nat, k: nat)
    requires u >= Pow10(k)
    ensures |Decimal(u)| > k
  {
    if k > 0 {
      DecimalLength(u / 10, k - 1);
    }
  }

  // ---------------------------------------------------------------------------
  // Round trips

  /** Formatting then parsing "2006-01-02" gives the date back exactly for the years 0..9999;
      outside them the formatted text is not accepted. */
  lemma IsoDateRoundTrip(d: Date)
    requires Valid(d)
    ensures ParseIsoDate(FormatIsoDate(d)) ==
      if 0 <= d.year <= 9999 then Ok(d) else Err(ParseError(FormatIsoDate(d)))
  {
    if 0 <= d.year <= 9999 {
      IsoDateParsesBack(d);
    } else {
      IsoDateOutOfRange(d);
    }
  }

  lemma IsoDateParsesBack(d: Date)
    requires Valid(d) && 0 <= d.year <= 9999
    ensures ParseIsoDate(FormatIsoDate(d)) == Ok(d)
  {
    var s := FormatIsoDate(d);
    TwoDigitField(d.month);
    TwoDigitField(d.day);
    FourDigitField(d.year);
    assert s[0..4] == AppendInt(d.year, 4);
    assert s[5..7] == AppendInt(d.month, 2);
    assert s[8..10] == AppendInt(d.day, 2);
  }

  lemma IsoDateOutOfRange(d: Date)
    requires Valid(d) && (d.year < 0 || d.year > 9999)
    ensures !IsoShaped(FormatIsoDate(d))
  {
    var s := FormatIsoDate(d);
    TwoDigitField(d.month);
    TwoDigitField(d.day);
    LongYearField(d.year);
    var t := AppendInt(d.year, 4);
    if d.year < 0 {
      assert s[0..4][0] == t[0];
    } else {
      assert s[4] == t[4];
    }
  }

  /** The parser accepts only the canonical text: what it reads formats back to the input. */
  lemma ParseIsoDateCanonical(s: string)
    requires ParseIsoDate(s).Ok?
    ensures Valid(ParseIsoDate(s).value) && 0 <= ParseIsoDate(s).value.year <= 9999
    ensures FormatIsoDate(ParseIsoDate(s).value) == s
  {
    FourDigitText(s[0..4]);
    TwoDigitText(s[5..7]);
    TwoDigitText(s[8..10]);
    assert s == s[0..4] + "-" + s[5..7] + "-" + s[8..10];
  }

  /** "02.01.2006" accepts exactly the dotted text of a valid date in the years 0..9999. */
  lemma ParseDottedDateExactly(s: string, d: Date)
    ensures ParseDottedDate(s) == Ok(d) <==> Valid(d) && 0 <= d.year <= 9999 && s == DottedForm(d)
  {
    if ParseDottedDate(s) == Ok(d) {
      ParsedDottedIsCanonical(s);
    }
    if Valid(d) && 0 <= d.year <= 9999 && s == DottedForm(d) {
      DottedFormParses(d);
    }
  }

  lemma ParsedDottedIsCanonical(s: string)
    requires ParseDottedDate(s).Ok?
    ensures var d := ParseDottedDate(s).value; Valid(d) && 0 <= d.year <= 9999 && s == DottedForm(d)
  {
    TwoDigitText(s[0..2]);
    TwoDigitText(s[3..5]);
    FourDigitText(s[6..10]);
    assert s == s[0..2] + "." + s[3..5] + "." + s[6..10];
  }

  lemma DottedFormParses(d: Date)
    requires Valid(d) && 0 <= d.year <= 9999
    ensures ParseDottedDate(DottedForm(d)) == Ok(d)
  {
    var s := DottedForm(d);
    TwoDigitField(d.day);
    TwoDigitField(d.month);
    FourDigitField(d.year);
    assert s[0..2] == AppendInt(d.day, 2);
    assert s[3..5] == AppendInt(d.month, 2);
    assert s[6..10] == AppendInt(d.year, 4);
  }
}
