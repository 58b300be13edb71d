/**
 * Character classes, ASCII case mapping, `String.prototype.trim` and the
 * small scanners that stand in for the regular expressions of the codec.
 * A scanner looks at the START of its argument, as a regular expression
 * engine does at the position it is trying; `Search` tries the positions
 * from left to right, as `String.prototype.match` and `RegExp.test` do.
 */
module JsText {
  import opened Wrappers

  /** `\s` in a regular expression, and what `trim` removes (WhiteSpace and LineTerminator). */
  predicate IsSpace(c: char) {
    c == '\t' || c == '\n' || c == '\U{B}' || c == '\U{C}' || c == '\r' || c == ' '
    || c == '\U{A0}' || c == '\U{1680}' || ('\U{2000}' <= c <= '\U{200A}')
    || c == '\U{2028}' || c == '\U{2029}' || c == '\U{202F}' || c == '\U{205F}'
    || c == '\U{3000}' || c == '\U{FEFF}'
  }

  /** The characters that `.` does not match. */
  predicate IsLineTerminator(c: char) {
    c == '\n' || c == '\r' || c == '\U{2028}' || c == '\U{2029}'
  }

  /** `\d`. */
  predicate IsDigit(c: char) { '0' <= c <= '9' }

  /** `[a-z]` under the `i` flag. */
  predicate IsAsciiLetter(c: char) { 'a' <= c <= 'z' || 'A' <= c <= 'Z' }

  /** `[a-z0-9]` under the `i` flag. */
  predicate IsAsciiAlnum(c: char) { IsDigit(c) || IsAsciiLetter(c) }

  /** `[a-f0-9]` under the `i` flag. */
  predicate IsHexDigitCI(c: char) { IsDigit(c) || 'a' <= c <= 'f' || 'A' <= c <= 'F' }

  function LowerChar(c: char): char {
    if 'A' <= c <= 'Z' then (c as int + 32) as char else c
  }

  /** `toLowerCase`, on ASCII letters. */
  function Lower(s: string): (r: string)
    ensures |r| == |s|
    ensures forall i | 0 <= i < |s| :: r[i] == LowerChar(s[i])
  {
    seq(|s|, i requires 0 <= i < |s| => LowerChar(s[i]))
  }

  /** The number of leading characters of `s` that satisfy `p`: a greedy `p*`. */
  function Span(s: string, p: char -> bool): (n: nat)
    ensures n <= |s|
    ensures forall k | 0 <= k < n :: p(s[k])
    ensures n == |s| || !p(s[n])
  {
    if s != [] && p(s[0]) then 1 + Span(s[1..], p) else 0
  }

  predicate StartsWith(s: string, lit: string) {
    |lit| <= |s| && s[..|lit|] == lit
  }

  /** A prefix test under the `i` flag; `lit` is written in lower case. */
  predicate StartsWithCI(s: string, lit: string) {
    |lit| <= |s| && Lower(s[..|lit|]) == lit
  }

  /** The index of the first `c` in `s`. */
  function IndexOf(s: string, c: char): (r: Option<nat>)
    ensures r.Some? ==> r.value < |s| && s[r.value] == c && c !in s[..r.value]
    ensures r.None? ==> c !in s
  {
    if s == [] then None
    else if s[0] == c then Some(0)
    else match IndexOf(s[1..], c)
      case Some(i) => assert s[..i + 1] == [s[0]] + s[1..][..i]; Some(i + 1)
      case None => None
  }

  /** Concatenation is associative (stated for use where the solver would not find it cheaply). */
  lemma {:induction false} AppendAssoc(a: string, b: string, c: string)
    ensures (a + b) + c == a + (b + c)
  {
  }

  /** A `c` with no `c` before it is the one `IndexOf` finds. */
  lemma {:induction false} IndexOfFirst(s: string, c: char, e: nat)
    requires e < |s| && s[e] == c && c !in s[..e]
    ensures IndexOf(s, c) == Some(e)
  {
    if e > 0 {
      assert s[0] in s[..e];
      assert s[1..][..e - 1] == s[1..e];
      assert forall d | d in s[1..e] :: d in s[..e];
      IndexOfFirst(s[1..], c, e - 1);
    }
  }

  /** `s` without its trailing whitespace. */
  function TrimEnd(s: string): (r: string)
    ensures |r| <= |s| && r == s[..|r|]
    ensures r == [] || !IsSpace(r[|r| - 1])
    ensures forall k | |r| <= k < |s| :: IsSpace(s[k])
  {
    if s != [] && IsSpace(s[|s| - 1]) then TrimEnd(s[..|s| - 1]) else s
  }

  /** `String.prototype.trim`. */
  function Trim(s: string): (r: string)
    ensures r == [] || (!IsSpace(r[0]) && !IsSpace(r[|r| - 1]))
  {
    TrimEnd(s[Span(s, IsSpace)..])
  }

  /** The result of `at` at the leftmost position of `s` where it matches. */
  function Search<T>(s: string, at: string -> Option<T>): Option<T>
    decreases |s|
  {
    match at(s)
    case Some(v) => Some(v)
    case None => if s == [] then None else Search(s[1..], at)
  }

  /** Whether `at` matches at some position of `s`: `RegExp.prototype.test`. */
  predicate Occurs(s: string, at: string -> bool)
    decreases |s|
  {
    at(s) || (s != [] && Occurs(s[1..], at))
  }

  /** `\d+` read as a decimal number: `parseInt(digits, 10)`. */
  function DecimalValue(ds: string): nat
    requires forall k | 0 <= k < |ds| :: IsDigit(ds[k])
  {
    if ds == [] then 0
    else
      assert IsDigit(ds[|ds| - 1]);
      10 * DecimalValue(ds[..|ds| - 1]) + (ds[|ds| - 1] as int - '0' as int)
  }
}
