/**
 * Decimal digit strings: the digit arithmetic behind Go's fixed-width
 * time fields (`01`, `2006`) and behind strconv's base-10 parsing.
 */
module Digits {

  predicate IsDigit(c: char) {
    '0' <= c <= '9'
  }

  predicate AllDigits(s: seq<char>) {
    forall i :: 0 <= i < |s| ==> IsDigit(s[i])
  }

  function DigitValue(c: char): nat
    requires IsDigit(c)
  {
    (c as int) - ('0' as int)
  }

  function DigitChar(d: nat): (c: char)
    requires d < 10
    ensures IsDigit(c) && DigitValue(c) == d
  {
    (('0' as int) + d) as char
  }

  function Pow10(n: nat): (p: nat)
    ensures p >= 1
  {
    if n == 0 then 1 else 10 * Pow10(n - 1)
  }

  /** The number a digit string spells, most significant digit first; "" spells 0. */
  function Value(s: seq<char>): (v: nat)
    requires AllDigits(s)
    ensures v < Pow10(|s|)
  {
    if |s| == 0 then 0 else 10 * Value(s[..|s| - 1]) + DigitValue(s[|s| - 1])
  }

  /** The shortest spelling of n, as Go's appendInt assembles it before padding. */
  function Decimal(n: nat): (s: seq<char>)
    ensures 1 <= |s| && AllDigits(s)
    ensures Value(s) == n
    ensures s[0] == '0' ==> n == 0 && |s| == 1
  {
    if n < 10 then [DigitChar(n)]
    else
      var s := Decimal(n / 10) + [DigitChar(n % 10)];
      assert s[..|s| - 1] == Decimal(n / 10);
      s
  }

  /** k copies of '0'. */
  function Zeros(k: nat): (s: seq<char>)
    ensures |s| == k && AllDigits(s)
    ensures Value(s) == 0
  {
    if k == 0 then []
    else
      var s := Zeros(k - 1) + ['0'];
      assert s[..k - 1] == Zeros(k - 1);
      s
  }

  /**
   * Go's appendInt(b, n, width) for n >= 0: the shortest spelling of n,
   * left-padded with '0' up to `width` characters, never truncated.
   */
  function PadLeft(n: nat, width: nat): (s: seq<char>)
    ensures AllDigits(s) && Value(s) == n
    ensures |s| >= width && |s| >= |Decimal(n)|
    ensures |s| == width || s == Decimal(n)
  {
    var d := Decimal(n);
    if |d| < width then
      ValueZerosPrefix(width - |d|, d);
      Zeros(width - |d|) + d
    else d
  }

  /** Leading zeros do not change the value of a digit string. */
  lemma {:induction false} ValueZerosPrefix(k: nat, s: seq<char>)
    requires AllDigits(s)
    ensures AllDigits(Zeros(k) + s)
    ensures Value(Zeros(k) + s) == Value(s)
    decreases |s|
  {
    var z := Zeros(k) + s;
    if |s| == 0 {
      assert z == Zeros(k);
    } else {
      var p := s[..|s| - 1];
      assert z[..|z| - 1] == Zeros(k) + p;
      ValueZerosPrefix(k, p);
    }
  }

  /** A number below 10^w has a spelling of at most w digits. */
  lemma {:induction false} DecimalLength(n: nat, w: nat)
    requires 1 <= w && n < Pow10(w)
    ensures |Decimal(n)| <= w
    decreases w
  {
    if n >= 10 {
      assert Pow10(1) == 10;
      DecimalLength(n / 10, w - 1);
    }
  }

  /** Padding to a width the number fits in yields exactly that width. */
  lemma PadLeftLength(n: nat, w: nat)
    requires 1 <= w && n < Pow10(w)
    ensures |PadLeft(n, w)| == w
  {
    DecimalLength(n, w);
  }

  /** Two digit strings of the same length that spell the same number are equal. */
  lemma {:induction false} ValueInjective(a: seq<char>, b: seq<char>)
    requires AllDigits(a) && AllDigits(b) && |a| == |b|
    requires Value(a) == Value(b)
    ensures a == b
    decreases |a|
  {
    if |a| > 0 {
      var n := |a| - 1;
      var pa, pb := a[..n], b[..n];
      assert DigitValue(a[n]) == Value(a) % 10 && DigitValue(b[n]) == Value(b) % 10;
      assert Value(pa) == Value(a) / 10 && Value(pb) == Value(b) / 10;
      ValueInjective(pa, pb);
      assert a[n] == b[n] by {
        assert (a[n] as int) - ('0' as int) == (b[n] as int) - ('0' as int);
      }
      assert a == pa + [a[n]] && b == pb + [b[n]];
    }
  }
}
