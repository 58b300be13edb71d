/**
 * What the encoder's output means. `Visible` is an independent reading of
 * HTML: tags are skipped, `<br>` reads as a newline and each of `&amp;`,
 * `&lt;` and `&gt;` reads as one character, in a single left-to-right pass.
 */
module EncoderFacts {
  import opened Wrappers
  import opened JsText
  import opened Patterns
  import opened RichText
  import opened Encoder

  /** The escape of one character. */
  function Piece(c: char): string {
    if c == '&' then "&amp;" else if c == '<' then "&lt;" else if c == '>' then "&gt;" else [c]
  }

  /** Escaping character by character: the reference for `EscapeHtml`. */
  function EscapeRef(t: string): string {
    if t == [] then [] else Piece(t[0]) + EscapeRef(t[1..])
  }

  /** `\r\n` and `\r` read as `\n`. */
  function NormalizeNewlines(t: string): string {
    if t == [] then []
    else if StartsWith(t, "\r\n") then "\n" + NormalizeNewlines(t[2..])
    else if t[0] == '\r' then "\n" + NormalizeNewlines(t[1..])
    else [t[0]] + NormalizeNewlines(t[1..])
  }

  /** The length of the first token of `h` and the text it reads as. */
  function Token(h: string): (r: (nat, string))
    requires h != []
    ensures 0 < r.0 <= |h|
  {
    if h[0] == '<' then
      if StartsWith(h, "<br>") then (4, "\n")
      else match IndexOf(h, '>')
        case Some(e) => (e + 1, "")
        case None => (1, "<")
    else if h[0] == '&' then
      if StartsWith(h, "&amp;") then (5, "&")
      else if StartsWith(h, "&lt;") then (4, "<")
      else if StartsWith(h, "&gt;") then (4, ">")
      else (1, "&")
    else (1, [h[0]])
  }

  /** The text a reader of the HTML `h` sees, token by token. */
  function Visible(h: string): string
    decreases |h|
  {
    if h == [] then [] else Token(h).1 + Visible(h[Token(h).0..])
  }

  /** The only markup is `<br>`: no other `<` or `>` appears. */
  predicate OnlyBrTags(h: string)
    decreases |h|
  {
    if h == [] then true
    else if StartsWith(h, "<br>") then OnlyBrTags(h[4..])
    else h[0] != '<' && h[0] != '>' && OnlyBrTags(h[1..])
  }

  /* ---------- escaping ---------- */

  lemma {:induction false} ReplaceCharOne(c: char, d: char, rep: string)
    ensures ReplaceAll([c], Literal([d]), rep) == if c == d then rep else [c]
  {
    assert [c][1..] == [] && [c][..1] == [c];
  }

  lemma {:induction false} ReplaceCharString(s: string, d: char, rep: string)
    requires d !in s
    ensures ReplaceAll(s, Literal([d]), rep) == s
  {
    ReplaceAllWithoutLead(s, Literal([d]), rep);
  }

  /** Escaping one character first and the rest after. */
  lemma {:induction false} EscapeCons(c: char, r: string)
    ensures EscapeHtml([c] + r) == Piece(c) + EscapeHtml(r)
  {
    var r1 := ReplaceAll(r, Literal("&"), "&amp;");
    var r2 := ReplaceAll(r1, Literal("<"), "&lt;");
    ReplaceCharAppend([c], r, '&', "&amp;");
    ReplaceCharOne(c, '&', "&amp;");
    var p1 := if c == '&' then "&amp;" else [c];
    ReplaceCharAppend(p1, r1, '<', "&lt;");
    if c == '&' {
      ReplaceCharString("&amp;", '<', "&lt;");
      ReplaceCharAppend("&amp;", r2, '>', "&gt;");
      ReplaceCharString("&amp;", '>', "&gt;");
    } else {
      ReplaceCharOne(c, '<', "&lt;");
      var p2 := if c == '<' then "&lt;" else [c];
      ReplaceCharAppend(p2, r2, '>', "&gt;");
      if c == '<' {
        ReplaceCharString("&lt;", '>', "&gt;");
      } else {
        ReplaceCharOne(c, '>', "&gt;");
      }
    }
  }

  /**
   * The three passes of `EscapeHtml` escape every character exactly once:
   * `&` goes first, so the `&` of `&lt;` and `&gt;` is not escaped again.
   */
  lemma {:induction false} EscapeMatchesReference(t: string)
    ensures EscapeHtml(t) == EscapeRef(t)
    decreases |t|
  {
    if t != [] {
      assert t == [t[0]] + t[1..];
      EscapeCons(t[0], t[1..]);
      EscapeMatchesReference(t[1..]);
    }
  }

  /** Escaped text holds no `<` or `>`, and a character other than those three it holds came from the text. */
  lemma {:induction false} EscapeRefChars(t: string)
    ensures '<' !in EscapeRef(t) && '>' !in EscapeRef(t)
    ensures forall c | c in EscapeRef(t) :: c in t || c in "&amp;lt;gt"
    decreases |t|
  {
    if t != [] {
      EscapeRefChars(t[1..]);
      var p := Piece(t[0]);
      assert EscapeRef(t) == p + EscapeRef(t[1..]);
      assert forall c | c in p :: c == t[0] || c in "&amp;lt;gt";
    }
  }

  /* ---------- line breaks ---------- */

  /** Text without line breaks passes `BreakLines` unchanged, whatever follows it. */
  lemma {:induction false} BreakLinesSkip(a: string, y: string)
    requires '\r' !in a && '\n' !in a
    ensures BreakLines(a + y) == a + BreakLines(y)
    decreases |a|
  {
    if a == [] {
      assert a + y == y;
    } else {
      assert a[0] in a;
      assert (a + y)[0] == a[0] && (a + y)[1..] == a[1..] + y;
      assert MatchLen(LineBreak, a + y).None?;
      assert forall c | c in a[1..] :: c in a;
      BreakLinesSkip(a[1..], y);
      assert [a[0]] + (a[1..] + BreakLines(y)) == a + BreakLines(y);
    }
  }

  /** Without a `\r` at the seam, `BreakLines` distributes over concatenation. */
  lemma {:induction false} BreakLinesAppend(a: string, y: string)
    requires '\r' !in a
    ensures BreakLines(a + y) == BreakLines(a) + BreakLines(y)
    decreases |a|
  {
    if a == [] {
      assert a + y == y;
    } else {
      assert a[0] in a;
      assert (a + y)[0] == a[0] && (a + y)[1..] == a[1..] + y;
      assert forall c | c in a[1..] :: c in a;
      BreakLinesAppend(a[1..], y);
      if a[0] == '\n' {
        assert MatchLen(LineBreak, a + y) == Some(1) == MatchLen(LineBreak, a);
        assert (a + y)[1..] == a[1..] + y;
      } else {
        assert MatchLen(LineBreak, a + y).None? && MatchLen(LineBreak, a).None?;
      }
    }
  }

  lemma {:induction false} BreakLinesFresh(s: string)
    requires '\r' !in s && '\n' !in s
    ensures BreakLines(s) == s
  {
    BreakLinesSkip(s, []);
    assert s + [] == s;
  }

  /* ---------- reading ---------- */

  /** A tag other than `<br>`, with no `>` before its end. */
  predicate PlainTag(tag: string) {
    |tag| >= 3 && tag[0] == '<' && tag[|tag| - 1] == '>'
    && '>' !in tag[..|tag| - 1]
    && (tag[1] != 'b' || tag[2] != 'r')
  }

  /** The fixed tags the encoder writes around a run are plain tags. */
  lemma {:induction false} FixedTagsPlain()
    ensures PlainTag("<b>") && PlainTag("<i>") && PlainTag("<s>") && PlainTag("<u>")
    ensures PlainTag("</b>") && PlainTag("</i>") && PlainTag("</s>") && PlainTag("</u>") && PlainTag("</span>")
  {
  }

  /** A plain tag reads as nothing, whatever follows it. */
  lemma {:induction false} TagReadsNothing(tag: string, y: string)
    requires PlainTag(tag)
    ensures Visible(tag + y) == Visible(y)
  {
    var h := tag + y;
    var e := |tag| - 1;
    assert h[..e] == tag[..e];
    assert h[1] == tag[1] && h[2] == tag[2];
    assert !StartsWith(h, "<br>");
    IndexOfFirst(h, '>', e);
    assert Token(h) == (e + 1, "");
    assert h[e + 1..] == y;
    var v := Visible(y);
    assert [] + v == v;
  }

  lemma {:induction false} BrReadsNewline(y: string)
    ensures Visible("<br>" + y) == "\n" + Visible(y)
  {
    assert ("<br>" + y)[4..] == y;
  }

  /** Each of the three entities reads as its character. */
  lemma {:induction false} EntityReads(e: string, c: char, y: string)
    requires (e == "&amp;" && c == '&') || (e == "&lt;" && c == '<') || (e == "&gt;" && c == '>')
    ensures Visible(e + y) == [c] + Visible(y)
  {
    var h := e + y;
    assert h[..|e|] == e;
    assert h[|e|..] == y;
    assert h[0] == '&' && h[1] == e[1];
    assert !StartsWith(h, "<br>");
    if c != '&' {
      assert !StartsWith(h, "&amp;");
      if c != '<' {
        assert !StartsWith(h, "&lt;");
      }
    }
  }

  lemma {:induction false} CharReads(c: char, y: string)
    requires c != '<' && c != '&'
    ensures Visible([c] + y) == [c] + Visible(y)
  {
    var h := [c] + y;
    assert h[0] == c;
    assert h[1..] == y;
  }

  /** The escape of a character other than a line break reads as that character. */
  lemma {:induction false} PieceReads(c: char, y: string)
    ensures Visible(Piece(c) + y) == [c] + Visible(y)
  {
    if c == '&' {
      EntityReads("&amp;", c, y);
    } else if c == '<' {
      EntityReads("&lt;", c, y);
    } else if c == '>' {
      EntityReads("&gt;", c, y);
    } else {
      CharReads(c, y);
    }
  }

  lemma {:induction false} BreakLinesOfCrLf(z: string)
    ensures BreakLines("\r\n" + z) == "<br>" + BreakLines(z)
  {
    assert MatchLen(LineBreak, "\r\n" + z) == Some(|"\r\n"|);
    ReplaceAllAtMatch("\r\n", z, LineBreak, "<br>");
  }

  lemma {:induction false} BreakLinesOfBreak(c: char, z: string)
    requires c == '\n' || (c == '\r' && (z == [] || z[0] != '\n'))
    ensures BreakLines([c] + z) == "<br>" + BreakLines(z)
  {
    var s := [c] + z;
    assert s[0] == c;
    if z != [] {
      assert s[1] == z[0];
    }
    assert !StartsWith(s, "\r\n");
    assert MatchLen(LineBreak, s) == Some(|[c]|);
    ReplaceAllAtMatch([c], z, LineBreak, "<br>");
  }

  lemma {:induction false} EscapeStartsWithNewline(r: string)
    ensures (EscapeHtml(r) != [] && EscapeHtml(r)[0] == '\n') <==> (r != [] && r[0] == '\n')
  {
    if r != [] {
      assert r == [r[0]] + r[1..];
      EscapeCons(r[0], r[1..]);
    }
  }

  lemma {:induction false} NormalizeCrLf(r: string)
    ensures NormalizeNewlines("\r\n" + r) == "\n" + NormalizeNewlines(r)
  {
    assert ("\r\n" + r)[..2] == "\r\n";
    assert ("\r\n" + r)[2..] == r;
  }

  /** `t` does not start with `\r\n` when its first two characters say so. */
  lemma {:induction false} NotCrLf(t: string)
    requires t != [] && (t[0] != '\r' || |t| < 2 || t[1] != '\n')
    ensures !StartsWith(t, "\r\n")
  {
    if |t| >= 2 {
      assert t[..2][0] == t[0] && t[..2][1] == t[1];
    }
  }

  lemma {:induction false} NormalizeChar(c: char, r: string)
    requires !(c == '\r' && r != [] && r[0] == '\n')
    ensures NormalizeNewlines([c] + r) == (if c == '\r' then "\n" else [c]) + NormalizeNewlines(r)
  {
    var t := [c] + r;
    assert t[0] == c && t[1..] == r;
    if r != [] {
      assert t[1] == r[0];
    }
    NotCrLf(t);
    if c == '\r' {
      assert NormalizeNewlines(t) == "\n" + NormalizeNewlines(t[1..]);
    } else {
      assert NormalizeNewlines(t) == [t[0]] + NormalizeNewlines(t[1..]);
    }
  }

  lemma {:induction false} EncodeCrLf(r: string)
    ensures BreakLines(EscapeHtml("\r\n" + r)) == "<br>" + BreakLines(EscapeHtml(r))
  {
    var t := "\r\n" + r;
    assert t == ['\r'] + (['\n'] + r);
    EscapeCons('\r', ['\n'] + r);
    EscapeCons('\n', r);
    assert Piece('\r') + (Piece('\n') + EscapeHtml(r)) == "\r\n" + EscapeHtml(r);
    BreakLinesOfCrLf(EscapeHtml(r));
  }

  lemma {:induction false} EncodeChar(c: char, r: string)
    requires !(c == '\r' && r != [] && r[0] == '\n')
    ensures BreakLines(EscapeHtml([c] + r))
         == (if c == '\r' || c == '\n' then "<br>" else Piece(c)) + BreakLines(EscapeHtml(r))
  {
    EscapeCons(c, r);
    if c == '\r' || c == '\n' {
      assert Piece(c) == [c];
      EscapeStartsWithNewline(r);
      BreakLinesOfBreak(c, EscapeHtml(r));
    } else {
      var p := Piece(c);
      assert '\r' !in p && '\n' !in p;
      BreakLinesSkip(p, EscapeHtml(r));
    }
  }

  /** Reading a prefix and then the rest. */
  lemma {:induction false} ReadsStep(h: string, p: string, rest: string, tp: string, tr: string, y: string)
    requires h == p + rest
    requires Visible(p + (rest + y)) == tp + Visible(rest + y)
    requires Visible(rest + y) == tr + Visible(y)
    ensures Visible(h + y) == (tp + tr) + Visible(y)
  {
    AppendAssoc(p, rest, y);
    AppendAssoc(tp, tr, Visible(y));
  }

  lemma {:induction false} CrLfReads(r: string, y: string)
    requires Visible(BreakLines(EscapeHtml(r)) + y) == NormalizeNewlines(r) + Visible(y)
    ensures Visible(BreakLines(EscapeHtml("\r\n" + r)) + y) == NormalizeNewlines("\r\n" + r) + Visible(y)
  {
    var br := BreakLines(EscapeHtml(r));
    EncodeCrLf(r);
    NormalizeCrLf(r);
    BrReadsNewline(br + y);
    ReadsStep(BreakLines(EscapeHtml("\r\n" + r)), "<br>", br, "\n", NormalizeNewlines(r), y);
  }

  lemma {:induction false} CharThenReads(c: char, r: string, y: string)
    requires !(c == '\r' && r != [] && r[0] == '\n')
    requires Visible(BreakLines(EscapeHtml(r)) + y) == NormalizeNewlines(r) + Visible(y)
    ensures Visible(BreakLines(EscapeHtml([c] + r)) + y) == NormalizeNewlines([c] + r) + Visible(y)
  {
    var br := BreakLines(EscapeHtml(r));
    EncodeChar(c, r);
    NormalizeChar(c, r);
    if c == '\r' || c == '\n' {
      BrReadsNewline(br + y);
      ReadsStep(BreakLines(EscapeHtml([c] + r)), "<br>", br, "\n", NormalizeNewlines(r), y);
    } else {
      PieceReads(c, br + y);
      ReadsStep(BreakLines(EscapeHtml([c] + r)), Piece(c), br, [c], NormalizeNewlines(r), y);
    }
  }

  /**
   * Escaped text with its line breaks turned into `<br>` reads as the text
   * itself, with `\r\n` and `\r` read as `\n`, whatever follows it.
   */
  lemma {:induction false} EscapedReads(t: string, y: string)
    ensures Visible(BreakLines(EscapeHtml(t)) + y) == NormalizeNewlines(t) + Visible(y)
    decreases |t|
  {
    if t == [] {
      assert BreakLines(EscapeHtml(t)) + y == y;
    } else if StartsWith(t, "\r\n") {
      EscapedReads(t[2..], y);
      assert t == "\r\n" + t[2..];
      CrLfReads(t[2..], y);
    } else {
      EscapedReads(t[1..], y);
      assert t == [t[0]] + t[1..];
      CharThenReads(t[0], t[1..], y);
    }
  }

  /**
   * A string, or a value without runs, encodes to HTML that reads as its
   * text, each `\r\n`, `\r` and `\n` read back as one newline.
   */
  lemma {:induction false} PlainEncodingReadsBack(t: string)
    ensures Visible(EncodePlain(t)) == NormalizeNewlines(t)
  {
    EscapedReads(t, []);
    assert EncodePlain(t) + [] == EncodePlain(t);
  }

  lemma {:induction false} BreakLinesOnlyBr(x: string)
    requires '<' !in x && '>' !in x
    ensures OnlyBrTags(BreakLines(x))
    decreases |x|
  {
    if x != [] {
      assert x[0] in x;
      assert forall c | c in x[1..] :: c in x;
      match MatchLen(LineBreak, x)
      case Some(n) =>
        assert forall c | c in x[n..] :: c in x;
        BreakLinesOnlyBr(x[n..]);
        assert ("<br>" + BreakLines(x[n..]))[4..] == BreakLines(x[n..]);
      case None =>
        BreakLinesOnlyBr(x[1..]);
        var h := [x[0]] + BreakLines(x[1..]);
        assert h[1..] == BreakLines(x[1..]);
        assert h[0] == x[0] && h[0] != '<';
        if |h| >= 4 {
          assert h[..4][0] == h[0];
        }
        assert !StartsWith(h, "<br>");
    }
  }

  /** A string, or a value without runs, is encoded with no markup but `<br>`. */
  lemma {:induction false} PlainEncodingOnlyBr(t: string)
    ensures OnlyBrTags(EncodePlain(t))
  {
    EscapeMatchesReference(t);
    EscapeRefChars(t);
    BreakLinesOnlyBr(EscapeHtml(t));
  }

  /* ---------- the tags of a run ---------- */

  /** `tag` when `present`, else nothing. */
  function Opt(present: bool, tag: string): string {
    if present then tag else ""
  }

  /** The opening tags of a styled run, outermost first. */
  function Opens(st: Style): string {
    Opt(ShowsColor(st.color), if ShowsColor(st.color) then SpanOpen(st.color.value) else "")
    + (Opt(st.underline, "<u>") + (Opt(st.strikethrough, "<s>") + (Opt(st.italic, "<i>") + Opt(st.bold, "<b>"))))
  }

  /** The closing tags of a styled run, innermost first. */
  function Closes(st: Style): string {
    (((Opt(st.bold, "</b>") + Opt(st.italic, "</i>")) + Opt(st.strikethrough, "</s>"))
    + Opt(st.underline, "</u>")) + Opt(ShowsColor(st.color), "</span>")
  }

  lemma {:induction false} OptWrap(present: bool, o: string, m: string, c: string)
    ensures (if present then o + m + c else m) == Opt(present, o) + m + Opt(present, c)
  {
    if !present {
      assert "" + m + "" == m;
    }
  }

  lemma {:induction false} Regroup(o2: string, o1: string, t: string, c1: string, c2: string)
    ensures o2 + (o1 + t + c1) + c2 == (o2 + o1) + t + (c1 + c2)
  {
  }

  /**
   * The tags nest in a fixed order: the colour span outermost, then `<u>`,
   * `<s>`, `<i>`, and `<b>` innermost, each closed in reverse order.
   */
  lemma {:induction false} WrapNesting(t: string, st: Style)
    ensures WrapRun(t, st) == Opens(st) + t + Closes(st)
  {
    var ob, cb := Opt(st.bold, "<b>"), Opt(st.bold, "</b>");
    var oi, ci := Opt(st.italic, "<i>"), Opt(st.italic, "</i>");
    var os, cs := Opt(st.strikethrough, "<s>"), Opt(st.strikethrough, "</s>");
    var ou, cu := Opt(st.underline, "<u>"), Opt(st.underline, "</u>");
    var sp := ShowsColor(st.color);
    var osp, csp := Opt(sp, if sp then SpanOpen(st.color.value) else ""), Opt(sp, "</span>");
    var b := if st.bold then "<b>" + t + "</b>" else t;
    OptWrap(st.bold, "<b>", t, "</b>");
    assert b == ob + t + cb;
    var i := if st.italic then "<i>" + b + "</i>" else b;
    OptWrap(st.italic, "<i>", b, "</i>");
    Regroup(oi, ob, t, cb, ci);
    assert i == (oi + ob) + t + (cb + ci);
    var s := if st.strikethrough then "<s>" + i + "</s>" else i;
    OptWrap(st.strikethrough, "<s>", i, "</s>");
    Regroup(os, oi + ob, t, cb + ci, cs);
    var u := if st.underline then "<u>" + s + "</u>" else s;
    OptWrap(st.underline, "<u>", s, "</u>");
    Regroup(ou, os + (oi + ob), t, (cb + ci) + cs, cu);
    assert u == (ou + (os + (oi + ob))) + t + (((cb + ci) + cs) + cu);
    if sp {
      OptWrap(true, SpanOpen(st.color.value), u, "</span>");
    } else {
      OptWrap(false, "", u, "</span>");
    }
    Regroup(osp, ou + (os + (oi + ob)), t, ((cb + ci) + cs) + cu, csp);
  }

  /**
   * A run gets a colour span exactly when its colour is present, non-empty
   * and not `#000000`; black text is written without one.
   */
  lemma {:induction false} SpanIffShownColor(t: string, st: Style)
    requires '<' !in t
    ensures StartsWith(WrapRun(t, st), "<span") <==> ShowsColor(st.color)
  {
    var w := WrapRun(t, st);
    WrapNesting(t, st);
    if ShowsColor(st.color) {
      assert w[..5] == SpanOpen(st.color.value)[..5];
    } else if st.underline || st.strikethrough || st.italic || st.bold {
      assert w[1] != 's' || w[2] != 'p';
    } else {
      assert w == t;
      if |t| >= 5 {
        assert t[0] in t;
      }
    }
  }

  /** A colour that cannot end the span's tag early or be broken into lines. */
  predicate CleanColor(c: Option<string>) {
    c.None? || ('>' !in c.value && '\r' !in c.value && '\n' !in c.value)
  }

  lemma {:induction false} OptTagReads(present: bool, tag: string, z: string)
    requires PlainTag(tag)
    ensures Visible(Opt(present, tag) + z) == Visible(z)
  {
    if present {
      TagReadsNothing(tag, z);
    } else {
      assert Opt(present, tag) + z == z;
    }
  }

  lemma {:induction false} SpanOpenShape(c: string)
    requires '>' !in c
    ensures PlainTag(SpanOpen(c))
  {
    var tag := SpanOpen(c);
    assert tag[..|tag| - 1] == "<span style=\"color:" + c + "\"";
  }

  lemma {:induction false} OpensRead(st: Style, z: string)
    requires CleanColor(st.color)
    ensures Visible(Opens(st) + z) == Visible(z)
  {
    var o1 := Opt(ShowsColor(st.color), if ShowsColor(st.color) then SpanOpen(st.color.value) else "");
    var o2, o3, o4, o5 := Opt(st.underline, "<u>"), Opt(st.strikethrough, "<s>"), Opt(st.italic, "<i>"), Opt(st.bold, "<b>");
    AppendAssoc(o1, o2 + (o3 + (o4 + o5)), z);
    AppendAssoc(o2, o3 + (o4 + o5), z);
    AppendAssoc(o3, o4 + o5, z);
    AppendAssoc(o4, o5, z);
    FixedTagsPlain();
    OptTagReads(st.bold, "<b>", z);
    OptTagReads(st.italic, "<i>", o5 + z);
    OptTagReads(st.strikethrough, "<s>", o4 + (o5 + z));
    OptTagReads(st.underline, "<u>", o3 + (o4 + (o5 + z)));
    if ShowsColor(st.color) {
      SpanOpenShape(st.color.value);
      OptTagReads(true, SpanOpen(st.color.value), o2 + (o3 + (o4 + (o5 + z))));
    } else {
      assert o1 + (o2 + (o3 + (o4 + (o5 + z)))) == o2 + (o3 + (o4 + (o5 + z)));
    }
  }

  lemma {:induction false} ClosesRead(st: Style, z: string)
    ensures Visible(Closes(st) + z) == Visible(z)
  {
    var c1, c2, c3, c4 := Opt(st.bold, "</b>"), Opt(st.italic, "</i>"), Opt(st.strikethrough, "</s>"), Opt(st.underline, "</u>");
    var c5 := Opt(ShowsColor(st.color), "</span>");
    AppendAssoc(((c1 + c2) + c3) + c4, c5, z);
    AppendAssoc((c1 + c2) + c3, c4, c5 + z);
    AppendAssoc(c1 + c2, c3, c4 + (c5 + z));
    AppendAssoc(c1, c2, c3 + (c4 + (c5 + z)));
    FixedTagsPlain();
    OptTagReads(ShowsColor(st.color), "</span>", z);
    OptTagReads(st.underline, "</u>", c5 + z);
    OptTagReads(st.strikethrough, "</s>", c4 + (c5 + z));
    OptTagReads(st.italic, "</i>", c3 + (c4 + (c5 + z)));
    OptTagReads(st.bold, "</b>", c2 + (c3 + (c4 + (c5 + z))));
  }

  /** No line break of any kind in `t`. */
  predicate NoBreaks(t: string) {
    '\r' !in t && '\n' !in t
  }

  /** The fixed tags the encoder writes hold no line break. */
  lemma {:induction false} FixedTagsNoBreaks()
    ensures NoBreaks("<b>") && NoBreaks("<i>") && NoBreaks("<s>") && NoBreaks("<u>")
    ensures NoBreaks("</b>") && NoBreaks("</i>") && NoBreaks("</s>") && NoBreaks("</u>") && NoBreaks("</span>")
  {
  }

  lemma {:induction false} NoBreaksInOpt(present: bool, tag: string)
    requires NoBreaks(tag)
    ensures NoBreaks(Opt(present, tag))
  {
  }

  lemma {:induction false} TagsHaveNoBreaks(st: Style)
    requires CleanColor(st.color)
    ensures '\r' !in Opens(st) && '\n' !in Opens(st)
    ensures '\r' !in Closes(st) && '\n' !in Closes(st)
  {
    var sp := ShowsColor(st.color);
    var span := if sp then SpanOpen(st.color.value) else "";
    assert NoBreaks(span);
    FixedTagsNoBreaks();
    NoBreaksInOpt(sp, span);
    NoBreaksInOpt(st.underline, "<u>");
    NoBreaksInOpt(st.strikethrough, "<s>");
    NoBreaksInOpt(st.italic, "<i>");
    NoBreaksInOpt(st.bold, "<b>");
    NoBreaksInOpt(st.underline, "</u>");
    NoBreaksInOpt(st.strikethrough, "</s>");
    NoBreaksInOpt(st.italic, "</i>");
    NoBreaksInOpt(st.bold, "</b>");
    NoBreaksInOpt(sp, "</span>");
  }

  /** Text without `\r` reads back unchanged. */
  lemma {:induction false} NormalizeWithoutCr(t: string)
    requires '\r' !in t
    ensures NormalizeNewlines(t) == t
    decreases |t|
  {
    if t != [] {
      assert t[0] in t;
      assert forall c | c in t[1..] :: c in t;
      NormalizeWithoutCr(t[1..]);
    }
  }

  lemma {:induction false} EscapeRefWithoutCr(t: string)
    requires '\r' !in t
    ensures '\r' !in EscapeRef(t)
    decreases |t|
  {
    if t != [] {
      assert t[0] in t;
      assert forall c | c in t[1..] :: c in t;
      EscapeRefWithoutCr(t[1..]);
      assert EscapeRef(t) == Piece(t[0]) + EscapeRef(t[1..]);
    }
  }

  /** The wrapped, escaped text of a run reads as the run's text, whatever follows it. */
  lemma {:induction false} WrappedReads(t: string, st: Style, y: string)
    requires '\r' !in t && CleanColor(st.color)
    ensures Visible(BreakLines(WrapRun(EscapeHtml(t), st)) + y) == t + Visible(y)
  {
    var x := EscapeHtml(t);
    var o, c := Opens(st), Closes(st);
    EscapeMatchesReference(t);
    EscapeRefWithoutCr(t);
    WrapNesting(x, st);
    TagsHaveNoBreaks(st);
    AppendAssoc(o, x, c);
    BreakLinesSkip(o, x + c);
    BreakLinesAppend(x, c);
    BreakLinesFresh(c);
    var bx := BreakLines(x);
    assert BreakLines(WrapRun(x, st)) == o + (bx + c);
    AppendAssoc(o, bx + c, y);
    AppendAssoc(bx, c, y);
    OpensRead(st, bx + (c + y));
    EscapedReads(t, c + y);
    NormalizeWithoutCr(t);
    ClosesRead(st, y);
  }

  /* ---------- the runs ---------- */

  /** The texts of `runs`, concatenated in order. */
  function RunTexts(v: RichTextValue, runs: seq<Run>): string
    requires forall r | r in runs :: 0 <= r.start <= r.end <= |v.text|
  {
    if runs == [] then ""
    else RunTexts(v, runs[..|runs| - 1]) + RunText(v, runs[|runs| - 1])
  }

  /** Every run's colour is clean. */
  predicate CleanColors(v: RichTextValue) {
    forall r | r in v.runs :: CleanColor(r.style.color)
  }

  lemma {:induction false} FragmentReads(v: RichTextValue, r: Run, y: string)
    requires 0 <= r.start <= r.end <= |v.text|
    requires '\r' !in v.text && CleanColor(r.style.color)
    ensures Visible(BreakLines(Fragment(v, r)) + y) == RunText(v, r) + Visible(y)
    ensures '\r' !in Fragment(v, r)
  {
    var t := RunText(v, r);
    assert forall c | c in t :: c in v.text;
    if t == "" {
      assert BreakLines(Fragment(v, r)) + y == y;
    } else {
      WrappedReads(t, r.style, y);
      var x := EscapeHtml(t);
      EscapeMatchesReference(t);
      EscapeRefWithoutCr(t);
      WrapNesting(x, r.style);
      TagsHaveNoBreaks(r.style);
    }
  }

  lemma {:induction false} FragmentsRead(v: RichTextValue, runs: seq<Run>, y: string)
    requires forall r | r in runs :: 0 <= r.start <= r.end <= |v.text| && CleanColor(r.style.color)
    requires '\r' !in v.text
    ensures Visible(BreakLines(Fragments(v, runs)) + y) == RunTexts(v, runs) + Visible(y)
    ensures '\r' !in Fragments(v, runs)
    decreases |runs|
  {
    if runs == [] {
      assert BreakLines(Fragments(v, runs)) + y == y;
    } else {
      var pre, last := runs[..|runs| - 1], runs[|runs| - 1];
      assert last in runs;
      assert forall r | r in pre :: r in runs;
      var fp, fl := Fragments(v, pre), Fragment(v, last);
      FragmentReads(v, last, y);
      FragmentsRead(v, pre, BreakLines(fl) + y);
      BreakLinesAppend(fp, fl);
      ReadsStep(BreakLines(fp + fl), BreakLines(fp), BreakLines(fl), RunTexts(v, pre), RunText(v, last), y);
    }
  }

  /**
   * The escaping invariant: the encoding of a value reads as the texts of
   * its runs, in order (as its text, when it has no runs), provided the
   * text has no `\r` and no colour could break out of its tag.
   */
  lemma {:induction false} EncodingReadsBack(v: RichTextValue)
    requires WellFormed(v) && CleanColors(v) && '\r' !in v.text
    ensures Visible(Encode(Rich(v))) == if v.runs == [] then v.text else RunTexts(v, v.runs)
  {
    if v.runs == [] {
      PlainEncodingReadsBack(v.text);
      NormalizeWithoutCr(v.text);
    } else {
      FragmentsRead(v, v.runs, []);
      assert BreakLines(Fragments(v, v.runs)) + [] == BreakLines(Fragments(v, v.runs));
      var t := RunTexts(v, v.runs);
      assert t + [] == t;
    }
  }

  /** A slice splits at any index inside it. */
  lemma {:induction false} SliceJoin(s: string, a: nat, b: nat, c: nat)
    requires a <= b <= c <= |s|
    ensures s[a..c] == s[a..b] + s[b..c]
  {
  }

  lemma {:induction false} RunTextsOfCover(v: RichTextValue, k: nat)
    requires CoversText(v) && 0 < k <= |v.runs|
    ensures RunTexts(v, v.runs[..k]) == v.text[v.runs[0].start..v.runs[k - 1].end]
  {
    var runs := v.runs[..k];
    var last := v.runs[k - 1];
    assert runs[|runs| - 1] == last;
    assert runs[..k - 1] == v.runs[..k - 1];
    assert forall r | r in runs :: r in v.runs;
    assert last in v.runs && v.runs[0] in v.runs;
    assert RunTexts(v, runs) == RunTexts(v, v.runs[..k - 1]) + RunText(v, last);
    if k > 1 {
      var prev := v.runs[k - 2];
      assert prev in v.runs;
      RunTextsOfCover(v, k - 1);
      assert prev.end == last.start;
      SliceJoin(v.text, v.runs[0].start, last.start, last.end);
    } else {
      assert v.runs[..0] == [];
    }
  }

  /**
   * For a value whose runs cover its text, as a spreadsheet reports them,
   * the encoding reads as the text.
   */
  lemma {:induction false} CoveredEncodingReadsText(v: RichTextValue)
    requires CoversText(v) && CleanColors(v) && '\r' !in v.text
    ensures Visible(Encode(Rich(v))) == v.text
  {
    EncodingReadsBack(v);
    RunTextsOfCover(v, |v.runs|);
    assert v.runs[..|v.runs|] == v.runs;
  }
}
