/**
 * The string primitives the plugin leans on: PHP's `trim`, jQuery's `$.trim`
 * (which is JavaScript's String.prototype.trim) and PHP's truthiness of a
 * string. Strings are sequences of characters; byte encodings are not modelled.
 */
module Strings {

  /** The characters PHP's `trim` strips by default: " \t\n\r\0\x0B". */
  predicate IsPhpTrimChar(c: char) {
    c == ' ' || c == '\t' || c == '\n' || c == '\r' || c == '\0' || c == '\U{B}'
  }

  /** The characters JavaScript's `trim` strips: WhiteSpace and LineTerminator. */
  predicate IsJsWhitespace(c: char) {
    || c == '\t' || c == '\n' || c == '\U{B}' || c == '\U{C}' || c == '\r' || c == ' '
    || c == '\U{A0}' || c == '\U{1680}' || ('\U{2000}' <= c <= '\U{200A}')
    || c == '\U{2028}' || c == '\U{2029}' || c == '\U{202F}' || c == '\U{205F}'
    || c == '\U{3000}' || c == '\U{FEFF}'
  }

  /** The number of leading characters of `s` that satisfy `strip`. */
  function LeadingStripped(s: string, strip: char -> bool): (k: nat)
    ensures k <= |s|
    ensures forall i :: 0 <= i < k ==> strip(s[i])
    ensures k < |s| ==> !strip(s[k])
  {
    if s == [] || !strip(s[0]) then 0 else 1 + LeadingStripped(s[1..], strip)
  }

  /** The length of `s` once its trailing characters that satisfy `strip` are dropped. */
  function KeptLength(s: string, strip: char -> bool): (e: nat)
    ensures e <= |s|
    ensures forall i :: e <= i < |s| ==> strip(s[i])
    ensures e > 0 ==> !strip(s[e - 1])
  {
    if s == [] || !strip(s[|s| - 1]) then |s| else KeptLength(s[..|s| - 1], strip)
  }

  /**
   * Strips `strip` characters from both ends: the result is the infix of `s`
   * that starts at the first kept character and ends at the last one, and it
   * is empty exactly when every character of `s` is stripped.
   */
  function Trim(s: string, strip: char -> bool): (r: string)
    ensures LeadingStripped(s, strip) + |r| <= |s|
    ensures r == s[LeadingStripped(s, strip)..LeadingStripped(s, strip) + |r|]
    ensures forall i :: LeadingStripped(s, strip) + |r| <= i < |s| ==> strip(s[i])
    ensures r != [] ==> !strip(r[0]) && !strip(r[|r| - 1])
    ensures r == [] <==> forall i :: 0 <= i < |s| ==> strip(s[i])
  {
    var k := LeadingStripped(s, strip);
    var e := KeptLength(s, strip);
    if e <= k then
      assert forall i :: 0 <= i < |s| ==> strip(s[i]) by {
        forall i | 0 <= i < |s| ensures strip(s[i]) {
          if i >= k { assert i >= e; }
        }
      }
      []
    else
      s[k..e]
  }

  /** PHP's `trim($s)` with its default character list. */
  function PhpTrim(s: string): (r: string)
    ensures r == [] <==> forall i :: 0 <= i < |s| ==> IsPhpTrimChar(s[i])
    ensures r != [] ==> !IsPhpTrimChar(r[0]) && !IsPhpTrimChar(r[|r| - 1])
  {
    Trim(s, IsPhpTrimChar)
  }

  /** jQuery's `$.trim(s)`. */
  function JsTrim(s: string): (r: string)
    ensures r == [] <==> forall i :: 0 <= i < |s| ==> IsJsWhitespace(s[i])
    ensures r != [] ==> !IsJsWhitespace(r[0]) && !IsJsWhitespace(r[|r| - 1])
  {
    Trim(s, IsJsWhitespace)
  }

  /** A PHP string is falsy exactly when it is "" or "0". */
  predicate PhpTruthy(s: string) {
    s != "" && s != "0"
  }

  /** Trimming a string that has nothing to strip at either end gives it back. */
  lemma TrimOfTrimmed(s: string, strip: char -> bool)
    requires s == [] || (!strip(s[0]) && !strip(s[|s| - 1]))
    ensures Trim(s, strip) == s
  {
  }

  /** Trimming is idempotent. */
  lemma TrimIdempotent(s: string, strip: char -> bool)
    ensures Trim(Trim(s, strip), strip) == Trim(s, strip)
  {
    TrimOfTrimmed(Trim(s, strip), strip);
  }
}
