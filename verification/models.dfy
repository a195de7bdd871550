/**
 * The legacy root-package types (models.go): a third copy of the
 * struct-embedding date codec, and the original subscription record,
 * which has no id and no end date.
 */
module Models {
  import opened Wrappers
  import opened Digits
  import opened GoTypes
  import opened GoTime
  import opened GoStrings
  import JsonDate

  /** `struct{ time.Time }`, as in models.go. */
  datatype JSONDate = JSONDate(time: Date)

  datatype Decoded = Decoded(target: JSONDate, err: Option<ParseError>)

  /**
   * The legacy Sub: service name, price, user id and start date only.
   * Its price tag is misspelt `josn:"price"`, so encoding/json ignores it
   * and uses the field name; that is wire-level and not modelled.
   */
  datatype Sub = Sub(serviceName: string, price: int32, userId: Uuid, startedAt: JSONDate)

  /** MarshalJSON: nothing for a zero Time, otherwise quoted MM-YYYY with the same layout as the live codec. */
  function MarshalJSON(t: JSONDate): (b: seq<char>)
    ensures b == [] <==> IsZero(t.time)
    ensures !IsZero(t.time) ==> |b| >= 2 && b[0] == '"' && b[|b| - 1] == '"'
    ensures b == JsonDate.MarshalJSON(t.time)
  {
    if IsZero(t.time) then [] else "\"" + FormatMonthYear(t.time) + "\""
  }

  /**
   * UnmarshalJSON: `null` is a no-op without error, a malformed MM-YYYY
   * is an error that leaves Time unchanged, a well-formed one stores the
   * first of the month; the same answers as the live codec.
   */
  function UnmarshalJSON(t: JSONDate, b: seq<char>): (r: Decoded)
    ensures var s := Trim(b, '"');
      && (s == JsonDate.Null ==> r == Decoded(t, None))
      && (s != JsonDate.Null && !WellFormedMonthYear(s) ==> r.err.Some? && r.target == t)
      && (s != JsonDate.Null && WellFormedMonthYear(s) ==>
            r == Decoded(JSONDate(FirstOfMonth(Value(s[3..]), Value(s[..2]))), None))
    ensures var d := JsonDate.UnmarshalJSON(t.time, b);
      r.target.time == d.target && r.err == d.err
  {
    var s := Trim(b, '"');
    if s == "null" then Decoded(t, None)
    else
      match ParseMonthYear(s)
      case Err(e) => Decoded(t, Some(e))
      case Ok(v) => Decoded(t.(time := v), None)
  }

}
