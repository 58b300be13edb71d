/**
 * The global replacements `s.replace(/…/g, rep)` of the codec. A pattern
 * is matched at the start of a string; `ReplaceAll` walks the string from
 * left to right, replacing each match and resuming after it, and copying a
 * character where nothing matches.
 */
module Patterns {
  import opened Wrappers
  import opened JsText

  datatype Pattern =
    | Literal(lit: string)   // a literal such as /&amp;/g
    | LineBreak              // /\r\n|\r|\n/g
    | BrTag                  // /<br\s*\/?>/gi
    | BlockOpenTag           // /<(?:div|p|li)[^>]*>/gi
    | AnyTag                 // /<[^>]+>/g

  /** The length of the match of `p` at the start of `s`. No pattern matches the empty string. */
  function MatchLen(p: Pattern, s: string): (r: Option<nat>)
    ensures r.Some? ==> 0 < r.value <= |s|
  {
    match p
    case Literal(lit) =>
      if 0 < |lit| && StartsWith(s, lit) then Some(|lit|) else None
    case LineBreak =>
      if StartsWith(s, "\r\n") then Some(2)
      else if s != [] && (s[0] == '\r' || s[0] == '\n') then Some(1)
      else None
    case BrTag =>
      if StartsWith(s, "<") && StartsWithCI(s[1..], "br") then
        var j := 3 + Span(s[3..], IsSpace);
        var k := if j < |s| && s[j] == '/' then j + 1 else j;
        if k < |s| && s[k] == '>' then Some(k + 1) else None
      else None
    case BlockOpenTag =>
      if StartsWith(s, "<")
         && (StartsWithCI(s[1..], "div") || StartsWithCI(s[1..], "p") || StartsWithCI(s[1..], "li"))
      then
        match IndexOf(s, '>')
        case Some(e) => Some(e + 1)
        case None => None
      else None
    case AnyTag =>
      if |s| >= 2 && s[0] == '<' && s[1] != '>' then
        match IndexOf(s, '>')
        case Some(e) => Some(e + 1)
        case None => None
      else None
  }

  /** `s.replace(p, rep)` with the `g` flag. */
  function ReplaceAll(s: string, p: Pattern, rep: string): string
    decreases |s|
  {
    if s == [] then []
    else match MatchLen(p, s)
      case Some(n) => rep + ReplaceAll(s[n..], p, rep)
      case None => [s[0]] + ReplaceAll(s[1..], p, rep)
  }

  /** The character every match of `p` begins with, for the patterns that have one. */
  function Lead(p: Pattern): Option<char> {
    match p
    case Literal(lit) => if lit == [] then None else Some(lit[0])
    case LineBreak => None
    case _ => Some('<')
  }

  /** A string that does not begin with the pattern's leading character is not matched at its start. */
  lemma {:induction false} NoMatchWithoutLead(p: Pattern, s: string)
    requires Lead(p).Some? && s != [] && s[0] != Lead(p).value
    ensures MatchLen(p, s).None?
  {
    match p
    case Literal(lit) =>
      if 0 < |lit| <= |s| {
        assert s[..|lit|][0] == s[0];
      }
    case LineBreak =>
    case AnyTag =>
    case _ =>
      assert s[..1][0] == s[0];
  }

  /** A pattern whose leading character does not occur in `s` leaves `s` unchanged. */
  lemma {:induction false} ReplaceAllWithoutLead(s: string, p: Pattern, rep: string)
    requires Lead(p).Some? && Lead(p).value !in s
    ensures ReplaceAll(s, p, rep) == s
  {
    if s != [] {
      assert s[0] in s;
      NoMatchWithoutLead(p, s);
      assert forall c | c in s[1..] :: c in s;
      ReplaceAllWithoutLead(s[1..], p, rep);
      assert [s[0]] + s[1..] == s;
    }
  }

  /** Replacing a single character distributes over concatenation. */
  lemma {:induction false} ReplaceCharAppend(a: string, b: string, c: char, rep: string)
    ensures ReplaceAll(a + b, Literal([c]), rep)
         == ReplaceAll(a, Literal([c]), rep) + ReplaceAll(b, Literal([c]), rep)
  {
    if a != [] {
      assert (a + b)[0] == a[0];
      assert (a + b)[1..] == a[1..] + b;
      assert MatchLen(Literal([c]), a + b) == MatchLen(Literal([c]), a);
      ReplaceCharAppend(a[1..], b, c, rep);
    } else {
      assert a + b == b;
    }
  }

  /** A prefix free of the pattern's leading character is copied unchanged. */
  lemma {:induction false} ReplaceAllSkip(a: string, y: string, p: Pattern, rep: string)
    requires Lead(p).Some? && Lead(p).value !in a
    ensures ReplaceAll(a + y, p, rep) == a + ReplaceAll(y, p, rep)
  {
    if a != [] {
      var s := a + y;
      assert a[0] in a;
      assert s[0] == a[0] && s[1..] == a[1..] + y;
      NoMatchWithoutLead(p, s);
      assert ReplaceAll(s, p, rep) == [s[0]] + ReplaceAll(s[1..], p, rep);
      assert forall c | c in a[1..] :: c in a;
      ReplaceAllSkip(a[1..], y, p, rep);
      AppendAssoc([a[0]], a[1..], ReplaceAll(y, p, rep));
      assert [a[0]] + a[1..] == a;
    } else {
      assert a + y == y;
    }
  }

  /** A match that covers exactly the prefix `a` is replaced, and the scan resumes after it. */
  lemma {:induction false} ReplaceAllAtMatch(a: string, y: string, p: Pattern, rep: string)
    requires MatchLen(p, a + y) == Some(|a|)
    ensures ReplaceAll(a + y, p, rep) == rep + ReplaceAll(y, p, rep)
  {
    assert (a + y)[|a|..] == y;
  }

  /**
   * A prefix at whose start the literal does not match, and whose other
   * characters are not the literal's first one, is copied unchanged.
   */
  lemma {:induction false} ReplaceAllNoMatchHead(a: string, y: string, lit: string, rep: string)
    requires a != [] && lit != [] && lit[0] !in a[1..]
    requires MatchLen(Literal(lit), a + y).None?
    ensures ReplaceAll(a + y, Literal(lit), rep) == a + ReplaceAll(y, Literal(lit), rep)
  {
    assert (a + y)[0] == a[0] && (a + y)[1..] == a[1..] + y;
    ReplaceAllSkip(a[1..], y, Literal(lit), rep);
    assert [a[0]] + (a[1..] + ReplaceAll(y, Literal(lit), rep)) == a + ReplaceAll(y, Literal(lit), rep);
  }
}
