/**
 * The part of Go's `time` package the service relies on: a time value in
 * UTC, its zero value, and Format / Parse with the layout "01-2006"
 * (two-digit month, a dash, four-digit year).
 */
module GoTime {
  import opened Wrappers
  import opened Digits

  type Month = m: int | 1 <= m <= 12 witness 1
  type Day = d: int | 1 <= d <= 31 witness 1
  type Hour = h: int | 0 <= h < 24
  type Sixty = m: int | 0 <= m < 60
  type Nanos = n: int | 0 <= n < 1_000_000_000

  /** A time.Time in UTC, by its calendar fields. */
  datatype Date = Date(year: int, month: Month, day: Day, hour: Hour, minute: Sixty, second: Sixty, nanosecond: Nanos)

  /** The zero time.Time: January 1, year 1, 00:00:00 UTC. */
  const Zero: Date := Date(1, 1, 1, 0, 0, 0, 0)

  /** time.Time.IsZero. */
  predicate IsZero(t: Date) {
    t == Zero
  }

  /** Midnight UTC on day 1 of the given month: what Parse yields for a layout without day or clock. */
  function FirstOfMonth(year: int, month: Month): Date {
    Date(year, month, 1, 0, 0, 0, 0)
  }

  /**
   * Go's appendInt(b, n, width): a '-' for negative n, then |n| in decimal,
   * zero-padded to at least width digits and exactly width when it fits;
   * digits that do not fit are written in full, without a leading zero.
   */
  function AppendInt(n: int, width: nat): (s: seq<char>)
    ensures |s| >= 1
    ensures n >= 0 ==> AllDigits(s) && Value(s) == n && |s| >= width
    ensures n >= 0 && 1 <= width && n < Pow10(width) ==> |s| == width
    ensures n < 0 ==> |s| >= 2 && s[0] == '-' && AllDigits(s[1..]) && Value(s[1..]) == -n
    ensures n >= 0 ==> |s| == width || |s| == 1 || s[0] != '0'
    ensures n < 0 ==> |s| - 1 >= width && (|s| - 1 == width || s[1] != '0')
  {
    if n < 0 then
      var s := "-" + PadLeft(-n, width);
      assert s[1..] == PadLeft(-n, width);
      s
    else if 1 <= width && n < Pow10(width) then
      PadLeftLength(n, width);
      PadLeft(n, width)
    else PadLeft(n, width)
  }

  /**
   * t.Format("01-2006"): two digits spelling the month, a '-', then the
   * year; for a year in 0..9999 that is a well-formed MM-YYYY spelling it.
   */
  function FormatMonthYear(t: Date): (f: seq<char>)
    ensures |f| >= 7 && AllDigits(f[..2]) && Value(f[..2]) == t.month && f[2] == '-'
    ensures f[3..] == AppendInt(t.year, 4)
    ensures 0 <= t.year <= 9999 ==> WellFormedMonthYear(f) && Value(f[3..]) == t.year
  {
    assert Pow10(2) == 100 && Pow10(4) == 10000;
    var m := AppendInt(t.month, 2);
    var f := m + "-" + AppendInt(t.year, 4);
    assert f[..2] == m && f[3..] == AppendInt(t.year, 4);
    f
  }

  /** The ways time.Parse("01-2006", s) fails, in the order it checks them. */
  datatype ParseError =
    | BadMonth         // no two digits where "01" stands
    | MonthOutOfRange  // two digits outside 01..12
    | BadSeparator     // no '-' after the month
    | BadYear          // no four digits where "2006" stands
    | ExtraText        // text left over after the year

  /** The texts layout "01-2006" accepts: MM-YYYY with MM in 01..12. */
  predicate WellFormedMonthYear(s: seq<char>) {
    && |s| == 7
    && AllDigits(s[..2]) && 1 <= Value(s[..2]) <= 12
    && s[2] == '-'
    && AllDigits(s[3..])
  }

  /**
   * time.Parse("01-2006", s): month by getnum with a fixed width of two,
   * the literal '-', a year of exactly four digits, nothing after; the
   * missing day defaults to 1 and the missing clock to midnight, in UTC.
   */
  function ParseMonthYear(s: seq<char>): (r: Result<Date, ParseError>)
    ensures r.Ok? <==> WellFormedMonthYear(s)
    ensures r.Ok? ==> r.value == FirstOfMonth(Value(s[3..]), Value(s[..2]))
  {
    if |s| < 2 || !IsDigit(s[0]) || !IsDigit(s[1]) then Err(BadMonth)
    else
      assert AllDigits(s[..2]);
      var month := Value(s[..2]);
      if month < 1 || 12 < month then Err(MonthOutOfRange)
      else if |s| < 3 || s[2] != '-' then Err(BadSeparator)
      else if |s| < 7 || !AllDigits(s[3..7]) then Err(BadYear)
      else if |s| > 7 then Err(ExtraText)
      else
        assert s[3..] == s[3..7];
        Ok(FirstOfMonth(Value(s[3..7]), month))
  }

  /** A parsed month-year always has a year in 0..9999. */
  lemma ParsedYearRange(s: seq<char>)
    requires ParseMonthYear(s).Ok?
    ensures 0 <= ParseMonthYear(s).value.year <= 9999
  {
    assert Pow10(4) == 10000;
  }

  /**
   * Formatting and parsing agree: parsing what Format wrote gives back the
   * first of t's month exactly when the year has four digits (0..9999);
   * a negative year or one past 9999 is written in a form Parse rejects.
   */
  lemma ParseFormat(t: Date)
    ensures ParseMonthYear(FormatMonthYear(t)).Ok? <==> 0 <= t.year <= 9999
    ensures 0 <= t.year <= 9999 ==> ParseMonthYear(FormatMonthYear(t)) == Ok(FirstOfMonth(t.year, t.month))
  {
    var s := FormatMonthYear(t);
    assert s[3..] == AppendInt(t.year, 4);
    if t.year < 0 {
      assert s[3..][0] == '-';
    } else if t.year > 9999 {
      var y := PadLeft(t.year, 4);
      assert Pow10(4) == 10000;
      assert |y| != 4;
    }
  }

  /** A time is written as the well-formed text whose digits spell its month and year. */
  lemma FormatSpelling(t: Date, s: seq<char>)
    requires WellFormedMonthYear(s)
    requires t.month == Value(s[..2]) && t.year == Value(s[3..])
    ensures FormatMonthYear(t) == s
  {
    var f := FormatMonthYear(t);
    assert f[..2] == s[..2] by {
      ValueInjective(f[..2], s[..2]);
    }
    assert f[3..] == s[3..] by {
      assert Pow10(4) == 10000;
      ValueInjective(f[3..], s[3..]);
    }
    assert f == f[..2] + "-" + f[3..];
    assert s == s[..2] + "-" + s[3..];
  }

  /** "01" and "0001" both spell one. */
  lemma OneSpellings()
    ensures AllDigits("01") && Value("01") == 1
    ensures AllDigits("0001") && Value("0001") == 1
  {
    assert "0001"[..3] == "000" && "000"[..2] == "00" && "00"[..1] == "0";
  }

  /** The zero time is written 01-0001, and 01-0001 reads back as the zero time. */
  lemma ZeroSpelling()
    ensures FormatMonthYear(Zero) == "01-0001"
    ensures ParseMonthYear("01-0001") == Ok(Zero)
  {
    var s := "01-0001";
    OneSpellings();
    assert s[..2] == "01" && s[3..] == "0001";
    FormatSpelling(Zero, s);
    ParseFormat(Zero);
  }

  /** Formatting what Parse read reproduces the text, leading zeros included. */
  lemma FormatParse(s: seq<char>)
    requires WellFormedMonthYear(s)
    ensures FormatMonthYear(ParseMonthYear(s).value) == s
  {
    FormatSpelling(ParseMonthYear(s).value, s);
  }

  /** Go's appendInt writes different integers differently. */
  lemma AppendIntInjective(a: int, b: int, width: nat)
    requires AppendInt(a, width) == AppendInt(b, width)
    ensures a == b
  {
    var sa, sb := AppendInt(a, width), AppendInt(b, width);
    assert (a < 0) == (sa[0] == '-') by {
      if a >= 0 { assert IsDigit(PadLeft(a, width)[0]); }
    }
    assert (b < 0) == (sb[0] == '-') by {
      if b >= 0 { assert IsDigit(PadLeft(b, width)[0]); }
    }
    if a < 0 {
      assert PadLeft(-a, width) == sa[1..] == sb[1..] == PadLeft(-b, width);
    }
  }

  /**
   * Format("01-2006") sees only the month and the year: two times are
   * written the same exactly when they fall in the same month of the same year.
   */
  lemma FormatSameMonth(a: Date, b: Date)
    ensures FormatMonthYear(a) == FormatMonthYear(b) <==> a.year == b.year && a.month == b.month
  {
    var fa, fb := FormatMonthYear(a), FormatMonthYear(b);
    if fa == fb {
      assert fa[..2] == AppendInt(a.month, 2) && fb[..2] == AppendInt(b.month, 2);
      assert fa[3..] == AppendInt(a.year, 4) && fb[3..] == AppendInt(b.year, 4);
      AppendIntInjective(a.year, b.year, 4);
    }
  }
}
