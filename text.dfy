/**
 * Whitespace and `String.prototype.trim` as the page script relies on them:
 * the required-field check (`value.trim() === ''`) and the `\s` class of the
 * email pattern use the same set of code points.
 */
module Text {

  /** ECMAScript WhiteSpace and LineTerminator code points (what `\s` matches and `trim` strips). */
  predicate IsWhitespace(c: char)
  {
    || c == '\t' || c == '\n' || c == '\U{000B}' || c == '\U{000C}' || c == '\r' || c == ' '
    || c == '\U{00A0}' || c == '\U{1680}' || ('\U{2000}' <= c <= '\U{200A}')
    || c == '\U{2028}' || c == '\U{2029}' || c == '\U{202F}' || c == '\U{205F}'
    || c == '\U{3000}' || c == '\U{FEFF}'
  }

  predicate AllWhitespace(s: string)
  {
    forall i :: 0 <= i < |s| ==> IsWhitespace(s[i])
  }

  /** How many whitespace characters the value starts with. */
  function LeadingWhitespace(s: string): (n: nat)
    ensures n <= |s|
    ensures forall k :: 0 <= k < n ==> IsWhitespace(s[k])
    ensures n < |s| ==> !IsWhitespace(s[n])
  {
    if s == [] || !IsWhitespace(s[0]) then 0 else LeadingWhitespace(s[1..]) + 1
  }

  /** How many whitespace characters the value ends with. */
  function TrailingWhitespace(s: string): (n: nat)
    ensures n <= |s|
    ensures forall k :: |s| - n <= k < |s| ==> IsWhitespace(s[k])
    ensures n < |s| ==> !IsWhitespace(s[|s| - n - 1])
  {
    if s == [] || !IsWhitespace(s[|s| - 1]) then 0 else TrailingWhitespace(s[..|s| - 1]) + 1
  }

  /** `s.trim()`: the value without its leading and its trailing whitespace. */
  function Trim(s: string): (r: string)
    ensures r == [] || (!IsWhitespace(r[0]) && !IsWhitespace(r[|r| - 1]))
    ensures r == [] <==> AllWhitespace(s)
  {
    var i := LeadingWhitespace(s);
    if i == |s| then [] else s[i..|s| - TrailingWhitespace(s)]
  }

  /** What `trim` keeps is a slice of the value, and everything it drops on either side is whitespace. */
  lemma TrimIsSlice(s: string)
    ensures exists i, j :: 0 <= i <= j <= |s| && Trim(s) == s[i..j] && AllWhitespace(s[..i]) && AllWhitespace(s[j..])
  {
    var i := LeadingWhitespace(s);
    if i == |s| {
      assert Trim(s) == s[i..i];
      assert AllWhitespace(s[..i]);
    } else {
      var j := |s| - TrailingWhitespace(s);
      assert !IsWhitespace(s[i]);
      assert i < j;
      assert Trim(s) == s[i..j];
      assert AllWhitespace(s[..i]);
      assert AllWhitespace(s[j..]);
    }
  }

  /** The required-field test `value.trim() === ''`: exactly the values made only of whitespace, the empty one included. */
  predicate IsBlank(s: string)
    ensures IsBlank(s) <==> AllWhitespace(s)
  {
    Trim(s) == []
  }
}
