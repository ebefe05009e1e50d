/**
 * The parts of ECMAScript string semantics the page handlers rely on:
 * `String.prototype.trim` and the truthiness of an optional string.
 */
module JsString {
  import opened Wrappers

  /** The code points `trim` strips: ECMAScript WhiteSpace (including every
      Unicode space separator) and LineTerminator. */
  predicate IsWhitespace(c: char) {
    || c == '\t' || c == '\n' || c == '\U{000B}' || c == '\U{000C}' || c == '\r'
    || c == ' ' || c == '\U{00A0}' || c == '\U{1680}'
    || ('\U{2000}' <= c <= '\U{200A}')
    || c == '\U{2028}' || c == '\U{2029}' || c == '\U{202F}' || c == '\U{205F}'
    || c == '\U{3000}' || c == '\U{FEFF}'
  }

  /** Every character of `s` is whitespace (the empty string included). */
  predicate IsBlank(s: string) {
    forall i | 0 <= i < |s| :: IsWhitespace(s[i])
  }

  /** How many whitespace characters `s` starts with. */
  function LeadingBlanks(s: string): (k: nat)
    ensures k <= |s|
    ensures forall i | 0 <= i < k :: IsWhitespace(s[i])
    ensures k < |s| ==> !IsWhitespace(s[k])
  {
    if s != [] && IsWhitespace(s[0]) then 1 + LeadingBlanks(s[1..]) else 0
  }

  /** How many whitespace characters `s` ends with. */
  function TrailingBlanks(s: string): (k: nat)
    ensures k <= |s|
    ensures forall i | |s| - k <= i < |s| :: IsWhitespace(s[i])
    ensures k < |s| ==> !IsWhitespace(s[|s| - 1 - k])
  {
    if s != [] && IsWhitespace(s[|s| - 1]) then 1 + TrailingBlanks(s[..|s| - 1]) else 0
  }

  /** `s.trim()`: the part of `s` between its leading and its trailing whitespace, which
      neither starts nor ends with whitespace. */
  function Trim(s: string): (r: string)
    ensures var k := LeadingBlanks(s);
            && k + |r| <= |s| && r == s[k..k + |r|]
            && IsBlank(s[..k]) && IsBlank(s[k + |r|..])
    ensures r != [] ==> !IsWhitespace(r[0]) && !IsWhitespace(r[|r| - 1])
  {
    var k := LeadingBlanks(s);
    if k == |s| then []
    else
      var j := |s| - TrailingBlanks(s);
      assert k < j;
      assert IsBlank(s[j..]) by {
        forall i | 0 <= i < |s| - j ensures IsWhitespace(s[j..][i]) {
          assert s[j..][i] == s[j + i];
        }
      }
      s[k..j]
  }

  /** `!s.trim()` holds exactly when `s` consists of whitespace only. */
  lemma TrimEmptyIffBlank(s: string)
    ensures Trim(s) == "" <==> IsBlank(s)
  {
  }

  /** JavaScript truthiness of a string that may be null: neither null nor "". */
  predicate Truthy(o: Option<string>) {
    o.Some? && o.value != ""
  }
}
