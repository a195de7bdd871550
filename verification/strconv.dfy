/** strconv.ParseInt(s, 10, 32), the parser of the `{id}` path segment. */
module Strconv {
  import opened Wrappers
  import opened Digits
  import opened GoTypes

  /** An optional '+' or '-' followed by at least one decimal digit; base 10 admits no underscores. */
  predicate DecimalSyntax(s: seq<char>) {
    var digits := if |s| > 0 && (s[0] == '+' || s[0] == '-') then s[1..] else s;
    |digits| >= 1 && AllDigits(digits)
  }

  /** The integer a decimal text spells, sign included. */
  function SignedValue(s: seq<char>): int
    requires DecimalSyntax(s)
  {
    if s[0] == '-' then -(Value(s[1..]) as int)
    else if s[0] == '+' then Value(s[1..])
    else Value(s)
  }

  predicate InInt32(n: int) {
    MinInt32 <= n <= MaxInt32
  }

  /**
   * ParseInt(s, 10, 32): a syntax error unless s is a signed decimal, a
   * range error unless its value fits in 32 bits; the handlers only ask
   * whether it failed.
   */
  function ParseInt32(s: seq<char>): (r: Option<int32>)
    ensures r.Some? <==> DecimalSyntax(s) && InInt32(SignedValue(s))
    ensures r.Some? ==> r.value as int == SignedValue(s)
  {
    if |s| == 0 then None
    else
      var neg := s[0] == '-';
      var digits := if s[0] == '+' || s[0] == '-' then s[1..] else s;
      if |digits| == 0 || !AllDigits(digits) then None
      else
        var n: int := if neg then -(Value(digits) as int) else Value(digits);
        if n < MinInt32 || MaxInt32 < n then None else Some(n as int32)
  }

  /** strconv.Itoa: a '-' for negatives, then the shortest decimal spelling. */
  function Itoa(n: int): seq<char> {
    if n < 0 then "-" + Decimal(-n) else Decimal(n)
  }

  /**
   * ParseInt32 accepts the decimal spelling of an integer exactly when the
   * integer fits in 32 bits, and then returns that integer.
   */
  lemma ParseItoa(n: int)
    ensures ParseInt32(Itoa(n)).Some? <==> InInt32(n)
    ensures InInt32(n) ==> ParseInt32(Itoa(n)) == Some(n as int32)
  {
    var s := Itoa(n);
    if n < 0 {
      assert s[0] == '-' && s[1..] == Decimal(-n);
    } else {
      assert IsDigit(s[0]);
    }
  }

  /** A well-formed decimal text parses to its value exactly when that value fits in 32 bits. */
  lemma ParseSyntactic(s: seq<char>)
    requires DecimalSyntax(s)
    ensures ParseInt32(s) == (if InInt32(SignedValue(s)) then Some(SignedValue(s) as int32) else None)
  {
  }

  /** A '+', some zeros and a decimal spelling form a decimal text of the spelled value. */
  lemma PlusZerosSyntax(k: nat, n: nat)
    ensures DecimalSyntax("+" + Zeros(k) + Decimal(n))
    ensures SignedValue("+" + Zeros(k) + Decimal(n)) == n
  {
    var d := Decimal(n);
    var z := Zeros(k) + d;
    ValueZerosPrefix(k, d);
    var s := "+" + z;
    assert "+" + Zeros(k) + d == s;
    assert s[0] == '+' && s[1..] == z;
  }

  /** A '+' sign and leading zeros are accepted and change nothing. */
  lemma ParsePlusZeros(k: nat, n: nat)
    ensures ParseInt32("+" + Zeros(k) + Decimal(n)) == (if n <= MaxInt32 then Some(n as int32) else None)
  {
    PlusZerosSyntax(k, n);
    ParseSyntactic("+" + Zeros(k) + Decimal(n));
  }
}
