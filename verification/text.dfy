/**
 * The few JavaScript string operations the chat code relies on:
 * `String.prototype.trim`, `String.prototype.includes` and the decimal
 * rendering `Number.prototype.toString` gives the integers `Date.now()`
 * returns (below 2^53, where it prints every digit and no exponent).
 */
module Text {

  /** The code points `trim` strips: ECMAScript WhiteSpace and LineTerminator. */
  predicate IsJsSpace(c: char) {
    || c == '\t' || c == '\n' || c == '\U{0B}' || c == '\U{0C}' || c == '\r'
    || c == ' ' || c == '\U{A0}' || c == '\U{1680}'
    || ('\U{2000}' <= c <= '\U{200A}')
    || c == '\U{2028}' || c == '\U{2029}' || c == '\U{202F}' || c == '\U{205F}'
    || c == '\U{3000}' || c == '\U{FEFF}'
  }

  predicate AllSpace(s: string) {
    forall i :: 0 <= i < |s| ==> IsJsSpace(s[i])
  }

  /** The length of the run of white space that `s` starts with. */
  function LeadingSpace(s: string): (n: nat)
    ensures n <= |s| && AllSpace(s[..n])
    ensures n == |s| || !IsJsSpace(s[n])
    decreases |s|
  {
    if s != [] && IsJsSpace(s[0]) then
      var n := LeadingSpace(s[1..]);
      assert s[..n + 1] == [s[0]] + s[1..][..n];
      n + 1
    else
      0
  }

  /** The length of the run of white space that `s` ends with. */
  function TrailingSpace(s: string): (n: nat)
    ensures n <= |s| && AllSpace(s[|s| - n..])
    ensures n == |s| || !IsJsSpace(s[|s| - n - 1])
    decreases |s|
  {
    if s != [] && IsJsSpace(s[|s| - 1]) then
      var n := TrailingSpace(s[..|s| - 1]);
      assert s[|s| - (n + 1)..] == s[..|s| - 1][|s| - 1 - n..] + [s[|s| - 1]];
      n + 1
    else
      0
  }

  /**
   * `s.trim()`: the slice of `s` between its leading and its trailing white
   * space, with no space at either end; empty exactly when `s` is all space.
   */
  function Trim(s: string): (r: string)
    ensures var k := LeadingSpace(s); k + |r| <= |s| && r == s[k..k + |r|]
    ensures var k := LeadingSpace(s); AllSpace(s[..k]) && AllSpace(s[k + |r|..])
    ensures r == [] || (!IsJsSpace(r[0]) && !IsJsSpace(r[|r| - 1]))
    ensures r == [] <==> AllSpace(s)
  {
    var k := LeadingSpace(s);
    if k == |s| then
      assert s[..k] == s;
      []
    else
      var m := TrailingSpace(s);
      SpaceRunsApart(s, k, m);
      s[k..|s| - m]
  }

  /** A character that is not a space lies before the trailing run of white space. */
  lemma SpaceRunsApart(s: string, k: nat, m: nat)
    requires k < |s| && m <= |s| && !IsJsSpace(s[k]) && AllSpace(s[|s| - m..])
    ensures k < |s| - m
  {
    var tail := s[|s| - m..];
    forall i | |s| - m <= i < |s| ensures IsJsSpace(s[i]) {
      assert s[i] == tail[i - (|s| - m)];
    }
  }

  /** `pat` occurs in `text` starting at index `i`. */
  predicate OccursAt(text: string, pat: string, i: int) {
    0 <= i && i + |pat| <= |text| && text[i..i + |pat|] == pat
  }

  /** `text.includes(pat)`: `pat` occurs somewhere in `text`. */
  function Contains(text: string, pat: string): (b: bool)
    ensures b <==> exists i :: OccursAt(text, pat, i)
    decreases |text|
  {
    if |text| < |pat| then
      assert forall i :: !OccursAt(text, pat, i);
      false
    else if text[..|pat|] == pat then
      assert OccursAt(text, pat, 0);
      true
    else
      var b := Contains(text[1..], pat);
      assert forall i :: OccursAt(text, pat, i) <==> (i == 0 && text[..|pat|] == pat) || (i >= 1 && OccursAt(text[1..], pat, i - 1)) by {
        forall i | i >= 1 ensures OccursAt(text, pat, i) <==> OccursAt(text[1..], pat, i - 1) {
          if i + |pat| <= |text| {
            var tail := text[1..];
            var here, there := text[i..i + |pat|], tail[i - 1..i - 1 + |pat|];
            assert forall k :: 0 <= k < |pat| ==> here[k] == there[k];
            assert here == there;
          }
        }
      }
      assert b ==> exists i :: OccursAt(text, pat, i) by {
        if b {
          var j :| OccursAt(text[1..], pat, j);
          assert OccursAt(text, pat, j + 1);
        }
      }
      b
  }

  predicate IsDigit(c: char) {
    '0' <= c <= '9'
  }

  predicate AllDigits(s: string) {
    forall i :: 0 <= i < |s| ==> IsDigit(s[i])
  }

  function Digit(d: nat): (c: char)
    requires d < 10
    ensures IsDigit(c) && c as int - '0' as int == d
  {
    ('0' as int + d) as char
  }

  /** The number a string of decimal digits denotes. */
  function DecimalValue(s: string): nat
    requires AllDigits(s)
    decreases |s|
  {
    if s == [] then 0
    else DecimalValue(s[..|s| - 1]) * 10 + (s[|s| - 1] as int - '0' as int)
  }

  /**
   * `n.toString()` for an integer `Date.now()` returns (below 2^53): digits
   * without leading zeros that denote `n`.
   */
  function DecimalString(n: nat): (s: string)
    ensures |s| >= 1 && AllDigits(s)
    ensures s[0] == '0' ==> s == "0"
    ensures DecimalValue(s) == n
    decreases n
  {
    if n < 10 then [Digit(n)]
    else
      var prefix := DecimalString(n / 10);
      var s := prefix + [Digit(n % 10)];
      assert s[..|s| - 1] == prefix;
      s
  }
}
