/**
 * HTML of the shape the encoder writes, read as a sequence of tokens: text
 * characters, and opening and closing tags with a plain name. For such HTML
 * the plain-text projection of `htmlToRichText` (RichTextLib.js:59-71)
 * keeps exactly the characters, and its tag scan (RichTextLib.js:78-130)
 * meets exactly the tags, in order, each at the plain offset of the
 * characters before it.
 */
module HtmlTokens {
  import opened Wrappers
  import opened JsText
  import opened Patterns
  import opened PlainText
  import opened TagScan
  import ColorFacts

  /** A text character, `<name>` or `<name attrs>`, or `</name>`. */
  datatype Tok = Chr(c: char) | Open(name: string, attrs: string) | Close(name: string)

  /** How a token is written. */
  function TokText(t: Tok): string {
    match t
    case Chr(c) => [c]
    case Open(n, a) => if a == "" then "<" + n + ">" else "<" + n + " " + a + ">"
    case Close(n) => "</" + n + ">"
  }

  /** The HTML of a token sequence. */
  function Render(toks: seq<Tok>): string {
    if toks == [] then "" else TokText(toks[0]) + Render(toks[1..])
  }

  /** The text characters of a token sequence. */
  function Chars(toks: seq<Tok>): string {
    if toks == [] then "" else (if toks[0].Chr? then [toks[0].c] else "") + Chars(toks[1..])
  }

  /** Lower-case ASCII letters and digits only. */
  predicate LowerAlnum(n: string) {
    n == [] || (IsAsciiAlnum(n[0]) && LowerChar(n[0]) == n[0] && LowerAlnum(n[1..]))
  }

  /** No `<` and no `>`. */
  predicate NoAngles(a: string) {
    a == [] || (a[0] != '<' && a[0] != '>' && NoAngles(a[1..]))
  }

  /**
   * A lower-case alphanumeric tag name that the line-break and block-tag
   * passes of the projection do not match (`br…`, `d…`, `l…`, `p…`).
   */
  predicate QuietName(n: string) {
    && n != []
    && LowerAlnum(n)
    && n[0] != 'd' && n[0] != 'l' && n[0] != 'p'
    && !(|n| >= 2 && n[0] == 'b' && n[1] == 'r')
  }

  /**
   * A character that is neither markup, an entity nor a line break; a tag
   * with a quiet name whose attributes hold no `<` or `>` and do not start
   * with whitespace.
   */
  predicate GoodTok(t: Tok) {
    match t
    case Chr(c) => c != '<' && c != '&' && c != '\n'
    case Open(n, a) => QuietName(n) && (a == "" || (NoAngles(a) && !IsSpace(a[0])))
    case Close(n) => QuietName(n)
  }

  predicate GoodToks(toks: seq<Tok>) {
    toks == [] || (GoodTok(toks[0]) && GoodToks(toks[1..]))
  }

  /** The number of text characters a token stands for. */
  function Width(t: Tok): nat {
    if t.Chr? then 1 else 0
  }

  /**
   * The scan over tokens, each token applied by `step` at the plain offset
   * of the characters before it. Kept general in `step`, so that facts
   * about the order of the tokens need not look into what a step does.
   */
  function ScanToks(toks: seq<Tok>, st: ScanState, offset: nat, step: (ScanState, Tok, nat) -> ScanState): ScanState
  {
    if toks == [] then st
    else ScanToks(toks[1..], step(st, toks[0], offset), offset + Width(toks[0]), step)
  }

  /** What a token does to the scan: a character nothing, a tag its `Step`. */
  function TokStep(st: ScanState, t: Tok, offset: nat): (r: ScanState)
    ensures |r.styles| == |st.styles|
  {
    match t
    case Chr(_) => st
    case Open(n, a) => Step(st, n, a, offset)
    case Close(n) => Step(st, "/" + n, "", offset)
  }

  /** The first three passes of the projection, which turn tags into newlines or drop them. */
  function Untagged(h: string): string {
    ReplaceAll(ReplaceAll(ReplaceAll(h, BrTag, "\n"), BlockOpenTag, "\n"), AnyTag, "")
  }

  /* ---------- sequences of tokens ---------- */

  lemma {:induction false} RenderAppend(a: seq<Tok>, b: seq<Tok>)
    ensures Render(a + b) == Render(a) + Render(b)
    decreases |a|
  {
    if a == [] {
      assert a + b == b;
    } else {
      assert (a + b)[1..] == a[1..] + b;
      RenderAppend(a[1..], b);
      AppendAssoc(TokText(a[0]), Render(a[1..]), Render(b));
    }
  }

  lemma {:induction false} CharsAppend(a: seq<Tok>, b: seq<Tok>)
    ensures Chars(a + b) == Chars(a) + Chars(b)
    decreases |a|
  {
    if a == [] {
      assert a + b == b;
    } else {
      assert (a + b)[1..] == a[1..] + b;
      CharsAppend(a[1..], b);
      AppendAssoc(if a[0].Chr? then [a[0].c] else "", Chars(a[1..]), Chars(b));
    }
  }

  lemma {:induction false} GoodToksAppend(a: seq<Tok>, b: seq<Tok>)
    requires GoodToks(a) && GoodToks(b)
    ensures GoodToks(a + b)
    decreases |a|
  {
    if a == [] {
      assert a + b == b;
    } else {
      assert (a + b)[0] == a[0] && (a + b)[1..] == a[1..] + b;
      GoodToksAppend(a[1..], b);
    }
  }

  lemma {:induction false} ScanToksAppend(a: seq<Tok>, b: seq<Tok>, st: ScanState, offset: nat, step: (ScanState, Tok, nat) -> ScanState)
    ensures ScanToks(a + b, st, offset, step) == ScanToks(b, ScanToks(a, st, offset, step), offset + |Chars(a)|, step)
    decreases |a|
  {
    if a == [] {
      assert a + b == b;
    } else {
      assert (a + b)[1..] == a[1..] + b;
      assert (a + b)[0] == a[0];
      ScanToksAppend(a[1..], b, step(st, a[0], offset), offset + Width(a[0]), step);
    }
  }

  /* ---------- names and attributes ---------- */

  lemma {:induction false} LowerAlnumChars(n: string)
    requires LowerAlnum(n)
    ensures forall k | 0 <= k < |n| :: IsAsciiAlnum(n[k]) && LowerChar(n[k]) == n[k]
    decreases |n|
  {
    if n != [] {
      LowerAlnumChars(n[1..]);
      assert forall k | 1 <= k < |n| :: n[k] == n[1..][k - 1];
    }
  }

  lemma {:induction false} NoAnglesChars(a: string)
    requires NoAngles(a)
    ensures '<' !in a && '>' !in a
    decreases |a|
  {
    if a != [] {
      NoAnglesChars(a[1..]);
      assert a == [a[0]] + a[1..];
    }
  }

  /** A greedy alphanumeric span stops at the end of a name, when the next character is not alphanumeric. */
  lemma {:induction false} SpanOfName(n: string, y: string)
    requires LowerAlnum(n)
    requires y != [] && !IsAsciiAlnum(y[0])
    ensures Span(n + y, IsAsciiAlnum) == |n|
    decreases |n|
  {
    if n == [] {
      assert n + y == y;
    } else {
      assert (n + y)[0] == n[0] && (n + y)[1..] == n[1..] + y;
      SpanOfName(n[1..], y);
    }
  }

  /** The first `>` of `a + (">" + y)`, when `a` has none, ends `a`. */
  lemma {:induction false} IndexAfter(a: string, y: string)
    requires '>' !in a
    ensures IndexOf(a + (">" + y), '>') == Some(|a|)
  {
    assert (a + (">" + y))[..|a|] == a;
    IndexOfFirst(a + (">" + y), '>', |a|);
  }

  /* ---------- the tag regex on a token ---------- */

  /** `TagAt` on `<`, a name ending before `e`, and `>` at `e`. */
  lemma {:induction false} TagAtBareShape(s: string, e: nat)
    requires |s| >= 2 && s[0] == '<' && s[1] != '/'
    requires 1 < e < |s| && Span(s[1..], IsAsciiAlnum) == e - 1 && s[e] == '>'
    ensures TagAt(s) == Some((e + 1, s[1..e], ""))
  {
  }

  /** `TagAt` on `<`, a name of length `|n|`, one blank, attributes `a` and `>`. */
  lemma {:induction false} TagAtAttrsShape(s: string, n: string, a: string, len: nat)
    requires len == |n| + |a| + 3 && |s| >= 2 && s[0] == '<' && s[1] != '/'
    requires 1 + |n| < |s| && Span(s[1..], IsAsciiAlnum) == |n| && 0 < |n|
    requires s[1 + |n|] != '>' && IsSpace(s[1 + |n|])
    requires 2 + |n| <= |s| && Span(s[1 + |n|..], IsSpace) == 1
    requires IndexOf(s[2 + |n|..], '>') == Some(|a|)
    requires s[1..1 + |n|] == n && s[2 + |n|..2 + |n| + |a|] == a
    ensures TagAt(s) == Some((len, n, a))
  {
  }

  /** `TagAt` on `</`, a name ending before `e`, and `>` at `e`. */
  lemma {:induction false} TagAtCloseShape(s: string, e: nat)
    requires |s| >= 3 && s[0] == '<' && s[1] == '/'
    requires 2 < e < |s| && Span(s[2..], IsAsciiAlnum) == e - 2 && s[e] == '>'
    ensures TagAt(s) == Some((e + 1, s[1..e], ""))
  {
  }

  /** A token's text followed by more HTML, written right-nested. */
  lemma {:induction false} BareText(n: string, y: string)
    ensures TokText(Open(n, "")) + y == "<" + (n + (">" + y))
  {
  }

  lemma {:induction false} AttrsText(n: string, a: string, y: string)
    requires a != ""
    ensures TokText(Open(n, a)) + y == "<" + (n + (" " + (a + (">" + y))))
  {
  }

  lemma {:induction false} AttrsLength(n: string, a: string)
    requires a != ""
    ensures |TokText(Open(n, a))| == |n| + |a| + 3
  {
  }

  lemma {:induction false} SlashText(n: string, y: string)
    ensures TokText(Close(n)) + y == "</" + (n + (">" + y))
  {
  }

  /** Where the pieces of `<name>…` sit. */
  lemma {:induction false} BarePieces(n: string, y: string, s: string)
    requires s == "<" + (n + (">" + y))
    ensures s[1..] == n + (">" + y) && s[1 + |n|] == '>' && s[1..1 + |n|] == n
    ensures n != [] ==> s[1] == n[0]
  {
    assert s[1..] == n + (">" + y);
  }

  /** Where the pieces of `<name attrs>…` sit. */
  lemma {:induction false} AttrsPieces(n: string, a: string, y: string, s: string)
    requires s == "<" + (n + (" " + (a + (">" + y))))
    ensures s[1..] == n + (" " + (a + (">" + y))) && s[1 + |n|] == ' '
    ensures s[1 + |n|..] == " " + (a + (">" + y)) && s[2 + |n|..] == a + (">" + y)
    ensures s[1..1 + |n|] == n && s[2 + |n|..2 + |n| + |a|] == a
    ensures n != [] ==> s[1] == n[0]
  {
    assert s[1..] == n + (" " + (a + (">" + y)));
    assert s[1 + |n|..] == " " + (a + (">" + y));
  }

  /** Where the pieces of `</name>…` sit. */
  lemma {:induction false} SlashPieces(n: string, y: string, s: string)
    requires s == "</" + (n + (">" + y))
    ensures s[2..] == n + (">" + y) && s[2 + |n|] == '>' && s[1..2 + |n|] == "/" + n
  {
    assert s[2..] == n + (">" + y);
  }

  lemma {:induction false} TagAtBare(n: string, y: string, s: string)
    requires n != [] && n[0] != '/' && Span(n + (">" + y), IsAsciiAlnum) == |n|
    requires s == "<" + (n + (">" + y))
    ensures TagAt(s) == Some((|n| + 2, n, ""))
  {
    BarePieces(n, y, s);
    TagAtBareShape(s, 1 + |n|);
  }

  lemma {:induction false} TagAtWithAttrs(n: string, a: string, y: string, s: string, len: nat)
    requires QuietName(n) && a != [] && NoAngles(a) && !IsSpace(a[0])
    requires s == "<" + (n + (" " + (a + (">" + y)))) && len == |n| + |a| + 3
    ensures TagAt(s) == Some((len, n, a))
  {
    var u := a + (">" + y);
    AttrsPieces(n, a, y, s);
    SpanOfName(n, " " + u);
    assert Span(s[1..], IsAsciiAlnum) == |n|;
    SpanOfSpace(u);
    assert Span(s[1 + |n|..], IsSpace) == 1;
    NoAnglesChars(a);
    IndexAfter(a, y);
    assert IndexOf(s[2 + |n|..], '>') == Some(|a|);
    TagAtAttrsShape(s, n, a, len);
  }

  /** One blank, then a character that is not whitespace. */
  lemma {:induction false} SpanOfSpace(u: string)
    requires u != [] && !IsSpace(u[0])
    ensures Span(" " + u, IsSpace) == 1
  {
    assert (" " + u)[1..] == u;
  }

  lemma {:induction false} TagAtSlash(n: string, y: string, s: string)
    requires n != [] && Span(n + (">" + y), IsAsciiAlnum) == |n|
    requires s == "</" + (n + (">" + y))
    ensures TagAt(s) == Some((|n| + 3, "/" + n, ""))
  {
    SlashPieces(n, y, s);
    TagAtCloseShape(s, 2 + |n|);
  }

  /** The tag regex reads an opening tag whole, with its name and attributes. */
  lemma {:induction false} TagAtOpen(n: string, a: string, y: string)
    requires GoodTok(Open(n, a))
    ensures TagAt(TokText(Open(n, a)) + y) == Some((|TokText(Open(n, a))|, n, a))
  {
    if a == "" {
      TagAtOpenBare(n, a, y);
    } else {
      TagAtOpenAttrs(n, a, y);
    }
  }

  lemma {:induction false} TagAtOpenBare(n: string, a: string, y: string)
    requires QuietName(n) && a == ""
    ensures TagAt(TokText(Open(n, a)) + y) == Some((|TokText(Open(n, a))|, n, a))
  {
    assert a == [];
    var s := TokText(Open(n, "")) + y;
    SpanOfName(n, ">" + y);
    BareText(n, y);
    TagAtBare(n, y, s);
  }

  lemma {:induction false} TagAtOpenAttrs(n: string, a: string, y: string)
    requires QuietName(n) && a != [] && NoAngles(a) && !IsSpace(a[0])
    ensures TagAt(TokText(Open(n, a)) + y) == Some((|TokText(Open(n, a))|, n, a))
  {
    var s := TokText(Open(n, a)) + y;
    AttrsText(n, a, y);
    AttrsLength(n, a);
    TagAtWithAttrs(n, a, y, s, |TokText(Open(n, a))|);
  }

  /** The tag regex reads a closing tag whole, its name with the slash. */
  lemma {:induction false} TagAtClose(n: string, y: string)
    requires GoodTok(Close(n))
    ensures TagAt(TokText(Close(n)) + y) == Some((|n| + 3, "/" + n, ""))
  {
    var s := TokText(Close(n)) + y;
    SpanOfName(n, ">" + y);
    SlashText(n, y);
    TagAtSlash(n, y, s);
  }

  /* ---------- the projection on a token ---------- */

  /**
   * The passes at a `<` whose first `>` ends the match at `len`, and whose
   * next characters begin neither `br` nor a block tag name.
   */
  lemma {:induction false} PassesAtHead(s: string, len: nat)
    requires 3 <= len <= |s| && s[0] == '<' && s[1] != '>'
    requires IndexOf(s, '>') == Some(len - 1)
    requires LowerChar(s[1]) != 'd' && LowerChar(s[1]) != 'l' && LowerChar(s[1]) != 'p'
    requires LowerChar(s[1]) == 'b' ==> LowerChar(s[2]) != 'r'
    ensures MatchLen(BrTag, s).None?
    ensures MatchLen(BlockOpenTag, s).None?
    ensures MatchLen(AnyTag, s) == Some(len)
  {
    var t := s[1..];
    assert Lower(t[..2])[0] == LowerChar(s[1]) && Lower(t[..2])[1] == LowerChar(s[2]);
    assert Lower(t[..1])[0] == LowerChar(s[1]);
    if |t| >= 3 {
      assert Lower(t[..3])[0] == LowerChar(s[1]);
    }
  }

  lemma {:induction false} LowerAlnumNoAngles(n: string)
    requires LowerAlnum(n)
    ensures '<' !in n && '>' !in n
    decreases |n|
  {
    if n != [] {
      LowerAlnumNoAngles(n[1..]);
      assert n == [n[0]] + n[1..];
    }
  }

  /** What the passes see of a tag `<` + name + `r`, where `r` ends at the tag's only `>`. */
  lemma {:induction false} HeadFacts(n: string, r: string, tag: string)
    requires QuietName(n) && tag == "<" + (n + r)
    requires r != [] && r[|r| - 1] == '>' && '>' !in r[..|r| - 1] && '<' !in r
    requires r[0] == '>' || r[0] == ' '
    ensures |tag| >= 3 && tag[0] == '<' && tag[|tag| - 1] == '>' && tag[1] != '>'
    ensures '>' !in tag[..|tag| - 1] && '<' !in tag[1..]
    ensures LowerChar(tag[1]) != 'd' && LowerChar(tag[1]) != 'l' && LowerChar(tag[1]) != 'p'
    ensures LowerChar(tag[1]) == 'b' ==> LowerChar(tag[2]) != 'r'
  {
    LowerAlnumNoAngles(n);
    assert tag[1..] == n + r;
    assert tag[..|tag| - 1] == "<" + (n + r[..|r| - 1]);
    assert tag[1] == n[0];
    if |n| >= 2 {
      LowerAlnumChars(n);
      assert tag[2] == n[1] && LowerChar(n[1]) == n[1];
    } else {
      assert tag[2] == r[0];
    }
  }

  lemma {:induction false} OpenHead(n: string, a: string)
    requires GoodTok(Open(n, a))
    ensures var tag := TokText(Open(n, a));
      && |tag| >= 3 && tag[0] == '<' && tag[|tag| - 1] == '>' && tag[1] != '>'
      && '>' !in tag[..|tag| - 1] && '<' !in tag[1..]
      && LowerChar(tag[1]) != 'd' && LowerChar(tag[1]) != 'l' && LowerChar(tag[1]) != 'p'
      && (LowerChar(tag[1]) == 'b' ==> LowerChar(tag[2]) != 'r')
  {
    var r := if a == "" then ">" else " " + (a + ">");
    if a != "" {
      NoAnglesChars(a);
      assert r[..|r| - 1] == " " + a;
      AttrsText(n, a, "");
    } else {
      BareText(n, "");
    }
    assert TokText(Open(n, a)) + "" == TokText(Open(n, a));
    assert (r + "") == r && (a + ">") + "" == a + ">";
    HeadFacts(n, r, TokText(Open(n, a)));
  }

  lemma {:induction false} CloseHead(n: string)
    requires GoodTok(Close(n))
    ensures var tag := TokText(Close(n));
      && |tag| >= 3 && tag[0] == '<' && tag[|tag| - 1] == '>' && tag[1] != '>'
      && '>' !in tag[..|tag| - 1] && '<' !in tag[1..]
      && LowerChar(tag[1]) != 'd' && LowerChar(tag[1]) != 'l' && LowerChar(tag[1]) != 'p'
      && (LowerChar(tag[1]) == 'b' ==> LowerChar(tag[2]) != 'r')
  {
    var tag := TokText(Close(n));
    LowerAlnumNoAngles(n);
    assert tag == "</" + (n + ">");
    assert tag[..|tag| - 1] == "</" + n;
    assert tag[1..] == "/" + (n + ">");
  }

  /** A tag token is matched by the catch-all pass only, and whole. */
  lemma {:induction false} TagPasses(t: Tok, z: string)
    requires GoodTok(t) && !t.Chr?
    ensures MatchLen(BrTag, TokText(t) + z).None?
    ensures MatchLen(BlockOpenTag, TokText(t) + z).None?
    ensures MatchLen(AnyTag, TokText(t) + z) == Some(|TokText(t)|)
    ensures '<' !in TokText(t)[1..]
  {
    if t.Open? {
      OpenHead(t.name, t.attrs);
    } else {
      CloseHead(t.name);
    }
    PassesOfTag(TokText(t), z);
  }

  lemma {:induction false} PassesOfTag(tag: string, z: string)
    requires |tag| >= 3 && tag[0] == '<' && tag[|tag| - 1] == '>' && tag[1] != '>'
    requires '>' !in tag[..|tag| - 1]
    requires LowerChar(tag[1]) != 'd' && LowerChar(tag[1]) != 'l' && LowerChar(tag[1]) != 'p'
    requires LowerChar(tag[1]) == 'b' ==> LowerChar(tag[2]) != 'r'
    ensures MatchLen(BrTag, tag + z).None?
    ensures MatchLen(BlockOpenTag, tag + z).None?
    ensures MatchLen(AnyTag, tag + z) == Some(|tag|)
  {
    var s := tag + z;
    assert s[..|tag| - 1] == tag[..|tag| - 1];
    IndexOfFirst(s, '>', |tag| - 1);
    PassesAtHead(s, |tag|);
  }

  /** A tag with no other `<`, where the pass does not match, is copied unchanged. */
  lemma {:induction false} KeepTag(x: string, y: string, p: Pattern, rep: string)
    requires x != [] && Lead(p) == Some('<') && '<' !in x[1..]
    requires MatchLen(p, x + y).None?
    ensures ReplaceAll(x + y, p, rep) == x + ReplaceAll(y, p, rep)
  {
    assert (x + y)[0] == x[0] && (x + y)[1..] == x[1..] + y;
    ReplaceAllSkip(x[1..], y, p, rep);
    HeadAndTail(x, ReplaceAll(y, p, rep));
  }

  lemma {:induction false} HeadAndTail(x: string, w: string)
    requires x != []
    ensures [x[0]] + (x[1..] + w) == x + w
  {
    assert [x[0]] + x[1..] == x;
    AppendAssoc([x[0]], x[1..], w);
  }

  /** The first three passes drop a tag token. */
  lemma {:induction false} UntagTag(t: Tok, y: string)
    requires GoodTok(t) && !t.Chr?
    ensures Untagged(TokText(t) + y) == Untagged(y)
  {
    var x := TokText(t);
    var y1 := ReplaceAll(y, BrTag, "\n");
    var y2 := ReplaceAll(y1, BlockOpenTag, "\n");
    TagPasses(t, y);
    TagPasses(t, y1);
    TagPasses(t, y2);
    KeepTag(x, y, BrTag, "\n");
    KeepTag(x, y1, BlockOpenTag, "\n");
    ReplaceAllAtMatch(x, y2, AnyTag, "");
  }

  /** The first three passes keep a character other than `<`. */
  lemma {:induction false} UntagChr(c: char, y: string)
    requires c != '<'
    ensures Untagged([c] + y) == [c] + Untagged(y)
  {
    var y1 := ReplaceAll(y, BrTag, "\n");
    var y2 := ReplaceAll(y1, BlockOpenTag, "\n");
    ReplaceAllSkip([c], y, BrTag, "\n");
    ReplaceAllSkip([c], y1, BlockOpenTag, "\n");
    ReplaceAllSkip([c], y2, AnyTag, "");
  }

  /** The first three passes drop a tag token and keep a character token. */
  lemma {:induction false} UntagTok(t: Tok, y: string)
    requires GoodTok(t)
    ensures Untagged(TokText(t) + y) == Chars([t]) + Untagged(y)
  {
    assert Chars([t]) == (if t.Chr? then [t.c] else "") + Chars([]);
    if t.Chr? {
      UntagChr(t.c, y);
    } else {
      UntagTag(t, y);
    }
  }

  /** The first token's text and characters, split off. */
  lemma {:induction false} ConsParts(toks: seq<Tok>, y: string)
    requires toks != []
    ensures Render(toks) + y == TokText(toks[0]) + (Render(toks[1..]) + y)
    ensures Chars(toks) == Chars([toks[0]]) + Chars(toks[1..])
  {
    AppendAssoc(TokText(toks[0]), Render(toks[1..]), y);
    CharsOne(toks[0]);
  }

  lemma {:induction false} CharsOne(t: Tok)
    ensures Chars([t]) == if t.Chr? then [t.c] else ""
  {
    assert Chars([t]) == (if t.Chr? then [t.c] else "") + Chars([]);
  }

  lemma {:induction false} UntagRender(toks: seq<Tok>, y: string)
    requires GoodToks(toks)
    ensures Untagged(Render(toks) + y) == Chars(toks) + Untagged(y)
    decreases |toks|
  {
    if toks == [] {
      assert Render(toks) + y == y;
    } else {
      ConsParts(toks, y);
      UntagTok(toks[0], Render(toks[1..]) + y);
      UntagRender(toks[1..], y);
      AppendAssoc(Chars([toks[0]]), Chars(toks[1..]), Untagged(y));
    }
  }

  /** The HTML of good tokens projects onto their characters. */
  lemma {:induction false} PlainOfRender(toks: seq<Tok>)
    requires GoodToks(toks)
    ensures ToPlainText(Render(toks)) == Chars(toks)
  {
    UntagRender(toks, "");
    assert Render(toks) + "" == Render(toks);
    var c := Chars(toks);
    assert Untagged("") == "";
    assert Untagged(Render(toks)) == c;
    CharsOfGood(toks);
    ReplaceAllWithoutLead(c, Literal("&nbsp;"), " ");
    ReplaceAllWithoutLead(c, Literal("&amp;"), "&");
    ReplaceAllWithoutLead(c, Literal("&lt;"), "<");
    ReplaceAllWithoutLead(c, Literal("&gt;"), ">");
    ReplaceAllWithoutLead(c, Literal("&quot;"), "\"");
    assert DecodeEntities(c) == c;
    assert c != [] ==> c[0] in c;
  }

  lemma {:induction false} CharsOfGood(toks: seq<Tok>)
    requires GoodToks(toks)
    ensures '<' !in Chars(toks) && '&' !in Chars(toks) && '\n' !in Chars(toks)
    decreases |toks|
  {
    if toks != [] {
      assert GoodTok(toks[0]);
      CharsOfGood(toks[1..]);
    }
  }

  /* ---------- the scan on the HTML of tokens ---------- */

  lemma {:induction false} LowerName(n: string)
    requires QuietName(n)
    ensures Lower(n) == n && Lower("/" + n) == "/" + n
  {
    LowerAlnumChars(n);
    ColorFacts.LowerOfLowerCase(n);
    ColorFacts.LowerOfLowerCase("/" + n);
  }

  /** The match the tag regex makes of a tag token written at `p`. */
  function TokMatch(t: Tok, p: nat): (m: TagMatch)
    requires !t.Chr?
    ensures m.index == p && m.len == |TokText(t)|
  {
    if t.Open? then TagMatch(p, |TokText(t)|, t.name, t.attrs)
    else TagMatch(p, |TokText(t)|, "/" + t.name, "")
  }

  lemma {:induction false} SplitAt(a: string, b: string)
    ensures (a + b)[|a|..] == b && (a + b)[..|a|] == a
  {
  }

  /** `exec` from `p` finds a tag token written at `p`. */
  lemma {:induction false} TagTokFound(html: string, p: nat, t: Tok, y: string)
    requires GoodTok(t) && !t.Chr?
    requires p <= |html| && html[p..] == TokText(t) + y
    ensures FindTag(html, p) == Some(TokMatch(t, p))
  {
    if t.Open? {
      TagAtOpen(t.name, t.attrs, y);
    } else {
      TagAtClose(t.name, y);
    }
  }

  /** The step of that match is the token's step, at the plain offset of the characters before it. */
  lemma {:induction false} TagTokMatchStep(html: string, done: seq<Tok>, t: Tok, st: ScanState)
    requires GoodToks(done) && GoodTok(t) && !t.Chr?
    requires |Render(done)| <= |html| && html[..|Render(done)|] == Render(done)
    ensures MatchStep(html, st, TokMatch(t, |Render(done)|)) == TokStep(st, t, |Chars(done)|)
  {
    PlainOfRender(done);
    LowerName(t.name);
  }

  /** At a tag token, `exec` finds that tag, at the plain offset of the characters before it. */
  lemma {:induction false} TagTokStep(html: string, done: seq<Tok>, t: Tok, rest: seq<Tok>, st: ScanState, next: nat, after: ScanState, result: ScanState)
    requires GoodToks(done) && GoodTok(t) && !t.Chr?
    requires html == Render(done) + (TokText(t) + Render(rest))
    requires next == |Render(done)| + |TokText(t)| && after == TokStep(st, t, |Chars(done)|)
    requires ScansTo(html, |Render(done)|, st, result)
    ensures next <= |html| && ScansTo(html, next, after, result)
  {
    var p := |Render(done)|;
    SplitAt(Render(done), TokText(t) + Render(rest));
    TagTokFound(html, p, t, Render(rest));
    TagTokMatchStep(html, done, t, st);
    ScanAdvanceTo(html, p, TokMatch(t, p), st, result, next, after);
  }

  /** `ScanAdvance`, with the position and the state after the match named by the caller. */
  lemma {:induction false} ScanAdvanceTo(html: string, pos: nat, tag: TagMatch, before: ScanState, result: ScanState, next: nat, after: ScanState)
    requires pos <= |html| && FindTag(html, pos) == Some(tag)
    requires ScansTo(html, pos, before, result)
    requires next == tag.index + tag.len && after == MatchStep(html, before, tag)
    ensures next <= |html| && ScanFrom(html, next, after) == result
  {
    ScanAtNamed(html, tag, before, next, after);
  }

  /** The scan from a match goes on from the position and the state the caller names. */
  lemma {:induction false} ScanAtNamed(html: string, tag: TagMatch, st: ScanState, next: nat, after: ScanState)
    requires 0 < tag.len && tag.index + tag.len <= |html|
    requires next == tag.index + tag.len && after == MatchStep(html, st, tag)
    ensures ScanAt(html, tag, st) == ScanFrom(html, next, after)
  {
    ScanAtUnfold(html, tag, st);
  }

  /** At a character token, `exec` looks past it. */
  lemma {:induction false} ChrTokStep(html: string, done: seq<Tok>, t: Tok, rest: seq<Tok>, st: ScanState, next: nat, result: ScanState)
    requires GoodTok(t) && t.Chr?
    requires html == Render(done) + (TokText(t) + Render(rest))
    requires next == |Render(done)| + 1
    requires ScansTo(html, |Render(done)|, st, result)
    ensures next <= |html| && ScansTo(html, next, st, result)
  {
    var p := |Render(done)|;
    assert html[p..] == [t.c] + Render(rest);
    assert TagAt(html[p..]).None?;
    assert FindTag(html, p) == FindTag(html, p + 1);
  }

  /** One token further: the tokens done, the HTML and the plain offset grow by it, and the scan takes its step. */
  lemma {:induction false} TokAdvance(html: string, done: seq<Tok>, toks: seq<Tok>, st: ScanState, result: ScanState)
    requires GoodToks(done) && GoodToks(toks) && toks != []
    requires html == Render(done) + Render(toks)
    requires ScansTo(html, |Render(done)|, st, result)
    ensures GoodToks(done + [toks[0]]) && GoodToks(toks[1..])
    ensures html == Render(done + [toks[0]]) + Render(toks[1..])
    ensures |Chars(done + [toks[0]])| == |Chars(done)| + Width(toks[0])
    ensures ScansTo(html, |Render(done + [toks[0]])|, TokStep(st, toks[0], |Chars(done)|), result)
  {
    var t, rest := toks[0], toks[1..];
    OneMore(done, t);
    AppendAssoc(Render(done), TokText(t), Render(rest));
    if t.Chr? {
      ChrTokStep(html, done, t, rest, st, |Render(done + [t])|, result);
    } else {
      TagTokStep(html, done, t, rest, st, |Render(done + [t])|, TokStep(st, t, |Chars(done)|), result);
    }
  }

  /** The tokens done, with one more. */
  lemma {:induction false} OneMore(done: seq<Tok>, t: Tok)
    requires GoodToks(done) && GoodTok(t)
    ensures GoodToks(done + [t])
    ensures Render(done + [t]) == Render(done) + TokText(t)
    ensures Chars(done + [t]) == Chars(done) + (if t.Chr? then [t.c] else "")
  {
    RenderAppend(done, [t]);
    CharsAppend(done, [t]);
    assert Render([t]) == TokText(t) + Render([]);
    assert Chars([t]) == (if t.Chr? then [t.c] else "") + Chars([]);
    assert GoodToks([t]) by { assert [t][1..] == []; }
    GoodToksAppend(done, [t]);
  }

  /** The scan of the HTML of good tokens, from the end of `done` on, is the scan of the remaining tokens. */
  lemma {:induction false} ScanOfTokens(html: string, done: seq<Tok>, toks: seq<Tok>, st: ScanState, result: ScanState)
    requires GoodToks(done) && GoodToks(toks)
    requires html == Render(done) + Render(toks)
    requires ScansTo(html, |Render(done)|, st, result)
    ensures result == ScanToks(toks, st, |Chars(done)|, TokStep)
    decreases |toks|
  {
    if toks == [] {
      assert html[|Render(done)|..] == [];
      ScanFromNone(html, |Render(done)|, st);
    } else {
      var after := TokStep(st, toks[0], |Chars(done)|);
      TokAdvance(html, done, toks, st, result);
      ScanOfTokens(html, done + [toks[0]], toks[1..], after, result);
      ScanToksCons(toks, st, |Chars(done)|, TokStep, |Chars(done + [toks[0]])|, after);
    }
  }

  /** The token scan past its first token, at the offset and state the caller names. */
  lemma {:induction false} ScanToksCons(toks: seq<Tok>, st: ScanState, offset: nat, step: (ScanState, Tok, nat) -> ScanState, next: nat, after: ScanState)
    requires toks != [] && next == offset + Width(toks[0]) && after == step(st, toks[0], offset)
    ensures ScanToks(toks, st, offset, step) == ScanToks(toks[1..], after, next, step)
  {
  }

  /** `charStyles` after the scan of the HTML of good tokens is what the token scan computes. */
  lemma {:induction false} CharStylesOfTokens(toks: seq<Tok>)
    requires GoodToks(toks)
    ensures ToPlainText(Render(toks)) == Chars(toks)
    ensures CharStyles(Render(toks)) == ScanToks(toks, ScanState([], InitialStyles(|Chars(toks)|)), 0, TokStep).styles
  {
    PlainOfRender(toks);
    var st := ScanState([], InitialStyles(|Chars(toks)|));
    assert Render([]) + Render(toks) == Render(toks);
    ScanOfTokens(Render(toks), [], toks, st, ScanFrom(Render(toks), 0, st));
  }
}
