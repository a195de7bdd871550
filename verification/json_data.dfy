/**
 * The struct-embedding copy of the date codec (internal/utils/json_data.go):
 * `JSONDate struct{ time.Time }`, with the same MarshalJSON and
 * UnmarshalJSON bodies written against the embedded Time. It redeclares
 * `format` and `JSONDate` in the package that json_date.go also declares
 * them in, so the two files cannot be built together; the model keeps it
 * as a separate module and shows it behaves exactly like the live codec.
 */
module JsonData {
  import opened Wrappers
  import opened Digits
  import opened GoTime
  import opened GoStrings
  import JsonDate

  /** `struct{ time.Time }`: the date sits in the embedded field Time. */
  datatype JSONDate = JSONDate(time: Date)

  datatype Decoded = Decoded(target: JSONDate, err: Option<ParseError>)

  /**
   * MarshalJSON: nothing when the embedded Time is zero, otherwise
   * quoted MM-YYYY; byte for byte what the named-type codec writes.
   */
  function MarshalJSON(t: JSONDate): (b: seq<char>)
    ensures b == [] <==> IsZero(t.time)
    ensures !IsZero(t.time) ==> |b| >= 2 && b[0] == '"' && b[|b| - 1] == '"'
    ensures b == JsonDate.MarshalJSON(t.time)
  {
    if IsZero(t.time) then [] else "\"" + FormatMonthYear(t.time) + "\""
  }

  /**
   * UnmarshalJSON: `null` (after trimming quotes) is a no-op without
   * error; a malformed MM-YYYY is an error that leaves the embedded Time
   * as it was; a well-formed one stores the first of that month. On every
   * input it agrees with the named-type codec.
   */
  function UnmarshalJSON(t: JSONDate, b: seq<char>): (r: Decoded)
    ensures var s := Trim(b, '"');
      && (s == JsonDate.Null ==> r == Decoded(t, None))
      && (s != JsonDate.Null && !WellFormedMonthYear(s) ==> r.err.Some? && r.target == t)
      && (s != JsonDate.Null && WellFormedMonthYear(s) ==>
            r == Decoded(JSONDate(FirstOfMonth(Value(s[3..]), Value(s[..2]))), None))
    ensures var d := JsonDate.UnmarshalJSON(t.time, b);
      r.target.time == d.target && r.err == d.err
  {
    var s := Trim(b, '"');
    if s == "null" then Decoded(t, None)
    else
      match ParseMonthYear(s)
      case Err(e) => Decoded(t, Some(e))
      case Ok(v) => Decoded(t.(time := v), None)
  }
}
