/**
 * The live `MM-YYYY` JSON date codec (internal/utils/json_date.go): a named
 * type over time.Time whose MarshalJSON writes "MM-YYYY" and whose
 * UnmarshalJSON reads it back, with the zero time written as no output
 * and the text `null` read as "leave the value alone".
 */
module JsonDate {
  import opened Wrappers
  import opened Digits
  import opened GoTime
  import opened GoStrings

  /** `type JSONDate time.Time`: the conversions both ways are the identity. */
  type JSONDate = Date

  /** The text UnmarshalJSON treats as "no value". */
  const Null: seq<char> := "null"

  function Quote(s: seq<char>): seq<char> {
    "\"" + s + "\""
  }

  /** What UnmarshalJSON leaves behind: the (possibly updated) receiver and the error it returned. */
  datatype Decoded = Decoded(target: JSONDate, err: Option<ParseError>)

  /**
   * MarshalJSON: nothing for the zero time, otherwise the month and year
   * in quotes. Between the quotes stand two digits for the month, a '-'
   * and the year as appendInt writes it with width four; for a year in
   * 0..9999 that is a well-formed MM-YYYY.
   */
  function MarshalJSON(t: JSONDate): (b: seq<char>)
    ensures b == [] <==> IsZero(t)
    ensures !IsZero(t) ==> |b| >= 2 && b[0] == '"' && b[|b| - 1] == '"'
    ensures !IsZero(t) ==> var f := b[1..|b| - 1];
      && |f| >= 7 && AllDigits(f[..2]) && Value(f[..2]) == t.month && f[2] == '-'
      && f[3..] == AppendInt(t.year, 4)
      && (0 <= t.year <= 9999 ==> WellFormedMonthYear(f) && Value(f[3..]) == t.year)
  {
    if IsZero(t) then []
    else
      var b := Quote(FormatMonthYear(t));
      assert b[1..|b| - 1] == FormatMonthYear(t);
      b
  }

  /**
   * UnmarshalJSON: strip every leading and trailing '"'; the text `null`
   * changes nothing and is no error; a well-formed MM-YYYY replaces the
   * receiver with midnight UTC on the first of that month; anything else
   * is an error and leaves the receiver as it was.
   */
  function UnmarshalJSON(t: JSONDate, b: seq<char>): (r: Decoded)
    ensures var s := Trim(b, '"');
      && (s == Null ==> r == Decoded(t, None))
      && (s != Null && !WellFormedMonthYear(s) ==> r.err.Some? && r.target == t)
      && (s != Null && WellFormedMonthYear(s) ==>
            r == Decoded(FirstOfMonth(Value(s[3..]), Value(s[..2])), None))
  {
    var s := Trim(b, '"');
    if s == Null then Decoded(t, None)
    else
      match ParseMonthYear(s)
      case Err(e) => Decoded(t, Some(e))
      case Ok(v) => Decoded(v, None)
  }

  /** The formatted month-year neither starts nor ends with a quote. */
  lemma FormatStripped(t: Date)
    ensures Stripped(FormatMonthYear(t), '"')
  {
    var f := FormatMonthYear(t);
    var y := AppendInt(t.year, 4);
    assert f[0] == f[..2][0];
    assert f[|f| - 1] == y[|y| - 1];
    if t.year < 0 {
      assert y[|y| - 1] == y[1..][|y| - 2];
    }
  }

  /**
   * Decoding what MarshalJSON wrote, in any receiver, gives the first of
   * the encoded time's month, for every non-zero time with a four-digit year.
   */
  lemma DecodeEncoded(t: Date, receiver: JSONDate)
    requires !IsZero(t) && 0 <= t.year <= 9999
    ensures UnmarshalJSON(receiver, MarshalJSON(t)) == Decoded(FirstOfMonth(t.year, t.month), None)
  {
    var f := FormatMonthYear(t);
    var b := MarshalJSON(t);
    assert b == Quote(f);
    assert b == Run('"', 1) + f + Run('"', 1);
    FormatStripped(t);
    TrimPadded(1, f, 1, '"');
    assert Trim(b, '"') == f;
    ParseFormat(t);
    assert f != Null by { assert f[2] == '-'; }
  }

  /** `null`, bare or wrapped in any number of quotes, leaves the receiver alone and is no error. */
  lemma NullIsNoOp(receiver: JSONDate, lead: nat, trail: nat)
    ensures UnmarshalJSON(receiver, Run('"', lead) + Null + Run('"', trail)) == Decoded(receiver, None)
  {
    TrimPadded(lead, Null, trail, '"');
  }

  /** The zero time is written as nothing, and nothing is not a date: decoding it fails and keeps the receiver. */
  lemma ZeroDoesNotRoundTrip(receiver: JSONDate)
    ensures MarshalJSON(Zero) == []
    ensures UnmarshalJSON(receiver, MarshalJSON(Zero)) == Decoded(receiver, Some(BadMonth))
  {
    TrimPadded(0, [], 0, '"');
    assert Run('"', 0) + [] + Run('"', 0) == [];
  }

  /**
   * Encoding what UnmarshalJSON read from a well-formed MM-YYYY, however
   * many quotes surround it, writes back the quoted original, except for
   * 01-0001, which reads as the zero time and is therefore written as nothing.
   */
  lemma EncodeDecoded(s: seq<char>, lead: nat, trail: nat, receiver: JSONDate)
    requires WellFormedMonthYear(s)
    ensures var d := UnmarshalJSON(receiver, Run('"', lead) + s + Run('"', trail));
      && d.err.None?
      && (s == "01-0001" ==> IsZero(d.target) && MarshalJSON(d.target) == [])
      && (s != "01-0001" ==> MarshalJSON(d.target) == Quote(s))
  {
    assert Stripped(s, '"') by { assert IsDigit(s[0]) by { assert s[..2][0] == s[0]; } assert s[6] == s[3..][3]; }
    TrimPadded(lead, s, trail, '"');
    assert s != Null;
    var t := ParseMonthYear(s).value;
    FormatParse(s);
    ZeroSpelling();
  }
}
