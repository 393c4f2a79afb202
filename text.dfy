/**
 * String helpers with the semantics of the two host languages:
 * JavaScript `trim`, Java `trim` / `isBlank`, case mapping, `includes`
 * and decimal rendering of a number.  Case mapping covers ASCII letters only.
 */
module Text {

  /** ECMAScript WhiteSpace and LineTerminator code points removed by `String.prototype.trim`. */
  predicate IsJsSpace(c: char) {
    c == ' ' || c == '\t' || c == '\n' || c == '\r' || c == '\U{000B}' || c == '\U{000C}'
    || c == '\U{00A0}' || c == '\U{1680}' || ('\U{2000}' <= c <= '\U{200A}')
    || c == '\U{2028}' || c == '\U{2029}' || c == '\U{202F}' || c == '\U{205F}'
    || c == '\U{3000}' || c == '\U{FEFF}'
  }

  /** Java `String.trim` strips every code unit at or below U+0020. */
  predicate IsJavaTrimmed(c: char) {
    c <= ' '
  }

  /** Java `Character.isWhitespace`, the test behind `String.isBlank`. */
  predicate IsJavaWhitespace(c: char) {
    c == ' ' || c == '\t' || c == '\n' || c == '\r' || c == '\U{000B}' || c == '\U{000C}'
    || ('\U{001C}' <= c <= '\U{001F}') || c == '\U{1680}' || ('\U{2000}' <= c <= '\U{2006}')
    || ('\U{2008}' <= c <= '\U{200A}') || c == '\U{2028}' || c == '\U{2029}'
    || c == '\U{205F}' || c == '\U{3000}'
  }

  /** Which characters a trim strips: JavaScript's white space, or Java's code units up to U+0020. */
  datatype Spaces = JsSpaces | JavaSpaces

  predicate IsSpace(kind: Spaces, c: char) {
    match kind
    case JsSpaces => IsJsSpace(c)
    case JavaSpaces => IsJavaTrimmed(c)
  }

  /** Drops the leading spaces. */
  function TrimStart(s: string, kind: Spaces): (r: string)
    ensures |r| <= |s| && r == s[|s| - |r|..]
    ensures forall i :: 0 <= i < |s| - |r| ==> IsSpace(kind, s[i])
    ensures r != [] ==> !IsSpace(kind, r[0])
  {
    if s != [] && IsSpace(kind, s[0]) then TrimStart(s[1..], kind) else s
  }

  /** Drops the trailing spaces. */
  function TrimEnd(s: string, kind: Spaces): (r: string)
    ensures |r| <= |s| && r == s[..|r|]
    ensures forall i :: |r| <= i < |s| ==> IsSpace(kind, s[i])
    ensures r != [] ==> !IsSpace(kind, r[|r| - 1])
  {
    if s != [] && IsSpace(kind, s[|s| - 1]) then TrimEnd(s[..|s| - 1], kind) else s
  }

  function Trim(s: string, kind: Spaces): string {
    TrimEnd(TrimStart(s, kind), kind)
  }

  /** JavaScript `s.trim()`. */
  function JsTrim(s: string): string {
    Trim(s, JsSpaces)
  }

  /** Java `s.trim()`. */
  function JavaTrim(s: string): string {
    Trim(s, JavaSpaces)
  }

  predicate AllSpace(s: string, kind: Spaces) {
    forall i :: 0 <= i < |s| ==> IsSpace(kind, s[i])
  }

  /** Nothing but white space: what `s.trim() === ""` (equivalently `!s.trim()`) tests in JavaScript, see `JsBlankIff`. */
  predicate IsJsBlank(s: string) {
    forall i :: 0 <= i < |s| ==> IsJsSpace(s[i])
  }

  /** Java `s.isBlank()`. */
  predicate IsJavaBlank(s: string) {
    forall i :: 0 <= i < |s| ==> IsJavaWhitespace(s[i])
  }

  /** Trimming yields the empty string exactly when every character is a space. */
  lemma TrimEmptyIff(s: string, kind: Spaces)
    ensures Trim(s, kind) == "" <==> AllSpace(s, kind)
  {
    var t := TrimStart(s, kind);
    if !AllSpace(s, kind) && t != [] {
      assert !IsSpace(kind, t[0]);
      assert |TrimEnd(t, kind)| > 0;
    }
  }

  /** `q` occurs in `s` at position `i`. */
  predicate OccursAt(s: string, q: string, i: int) {
    0 <= i && i + |q| <= |s| && s[i..i + |q|] == q
  }

  lemma JsBlankIff(s: string)
    ensures IsJsBlank(s) <==> JsTrim(s) == ""
  {
    TrimEmptyIff(s, JsSpaces);
    assert IsJsBlank(s) <==> AllSpace(s, JsSpaces);
  }

  /** ASCII case mapping (both languages map more letters than these). */
  function LowerChar(c: char): char {
    if 'A' <= c <= 'Z' then (c as int + 32) as char else c
  }

  function UpperChar(c: char): char {
    if 'a' <= c <= 'z' then (c as int - 32) as char else c
  }

  function ToLower(s: string): (r: string)
    ensures |r| == |s| && forall i :: 0 <= i < |s| ==> r[i] == LowerChar(s[i])
  {
    if s == [] then [] else [LowerChar(s[0])] + ToLower(s[1..])
  }

  function ToUpper(s: string): (r: string)
    ensures |r| == |s| && forall i :: 0 <= i < |s| ==> r[i] == UpperChar(s[i])
  {
    if s == [] then [] else [UpperChar(s[0])] + ToUpper(s[1..])
  }

  /** Java `a.equalsIgnoreCase(b)`, ASCII letters only. */
  predicate EqualsIgnoreCase(a: string, b: string) {
    ToLower(a) == ToLower(b)
  }

  /** JavaScript `s.includes(q)` / Java `s.contains(q)`. */
  predicate Contains(s: string, q: string) {
    exists i | 0 <= i <= |s| - |q| :: OccursAt(s, q, i)
  }

  /** Every string contains the empty string. */
  lemma ContainsEmpty(s: string)
    ensures Contains(s, "")
  {
    assert OccursAt(s, "", 0);
  }

  function DigitChar(d: nat): char
    requires d < 10
  {
    "0123456789"[d]
  }

  /** Decimal rendering of a natural number, as `${n}` gives it. */
  function NatToString(n: nat): (r: string)
    ensures |r| >= 1
    ensures forall i :: 0 <= i < |r| ==> '0' <= r[i] <= '9'
  {
    if n < 10 then [DigitChar(n)] else NatToString(n / 10) + [DigitChar(n % 10)]
  }
}
