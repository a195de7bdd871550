/** strings.Trim with a one-character cutset, as the date decoders call it with `"`. */
module GoStrings {

  /** n copies of c. */
  function Run(c: char, n: nat): (s: seq<char>)
    ensures |s| == n && forall i :: 0 <= i < n ==> s[i] == c
  {
    seq(n, _ => c)
  }

  /** True when s neither starts nor ends with c. */
  predicate Stripped(s: seq<char>, c: char) {
    |s| == 0 || (s[0] != c && s[|s| - 1] != c)
  }

  /** Removes every leading c. */
  function TrimLeft(s: seq<char>, c: char): (r: seq<char>)
    ensures |r| <= |s| && s == Run(c, |s| - |r|) + r
    ensures |r| == 0 || r[0] != c
  {
    if |s| > 0 && s[0] == c then
      var r := TrimLeft(s[1..], c);
      assert Run(c, |s| - |r|) == [c] + Run(c, |s| - 1 - |r|);
      r
    else s
  }

  /** Removes every trailing c. */
  function TrimRight(s: seq<char>, c: char): (r: seq<char>)
    ensures |r| <= |s| && s == r + Run(c, |s| - |r|)
    ensures |r| == 0 || r[|r| - 1] != c
  {
    if |s| > 0 && s[|s| - 1] == c then
      var r := TrimRight(s[..|s| - 1], c);
      assert Run(c, |s| - |r|) == Run(c, |s| - 1 - |r|) + [c];
      r
    else s
  }

  /**
   * strings.Trim(s, string(c)): Go strips the trailing run first and then
   * the leading run of what is left. The result is an infix of s that
   * neither starts nor ends with c and is surrounded by nothing but c.
   */
  function Trim(s: seq<char>, c: char): (r: seq<char>)
    ensures Stripped(r, c)
    ensures exists lead: nat, trail: nat :: s == Run(c, lead) + r + Run(c, trail)
  {
    var t := TrimRight(s, c);
    var r := TrimLeft(t, c);
    assert s == Run(c, |t| - |r|) + r + Run(c, |s| - |t|);
    r
  }

  lemma {:induction false} TrimLeftPadded(a: nat, m: seq<char>, c: char)
    requires |m| == 0 || m[0] != c
    ensures TrimLeft(Run(c, a) + m, c) == m
    decreases a
  {
    if a > 0 {
      assert (Run(c, a) + m)[1..] == Run(c, a - 1) + m;
      TrimLeftPadded(a - 1, m, c);
    }
  }

  lemma {:induction false} TrimRightPadded(m: seq<char>, b: nat, c: char)
    requires |m| == 0 || m[|m| - 1] != c
    ensures TrimRight(m + Run(c, b), c) == m
    decreases b
  {
    if b > 0 {
      var s := m + Run(c, b);
      assert s[..|s| - 1] == m + Run(c, b - 1);
      TrimRightPadded(m, b - 1, c);
    }
  }

  /**
   * Trim is determined by its contract: whatever runs of c surround a
   * stripped text, trimming gives back exactly that text.
   */
  lemma TrimPadded(lead: nat, m: seq<char>, trail: nat, c: char)
    requires Stripped(m, c)
    ensures Trim(Run(c, lead) + m + Run(c, trail), c) == m
  {
    var s := Run(c, lead) + m + Run(c, trail);
    if |m| == 0 {
      assert s == [] + Run(c, lead + trail);
      TrimRightPadded([], lead + trail, c);
    } else {
      var l := Run(c, lead) + m;
      assert s == l + Run(c, trail);
      assert l[|l| - 1] == m[|m| - 1];
      TrimRightPadded(l, trail, c);
      TrimLeftPadded(lead, m, c);
    }
  }
}
