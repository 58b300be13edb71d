/**
 * The HTML that `richTextToHtml` (RichTextLib.js:13-49) writes for a value
 * whose text needs no escaping, read as tokens: each run is the opening
 * tags of its style (the colour span outermost, `<b>` innermost), its
 * characters, and the closing tags in the reverse order.
 */
module RunTokens {
  import opened Wrappers
  import opened JsText
  import opened RichText
  import opened Encoder
  import opened EncoderFacts
  import opened HtmlTokens

  /** A tag the encoder wraps a run in: its name and its attributes. */
  datatype Layer = Layer(name: string, attrs: string)

  /** The attributes of the colour span. */
  function ColorAttrs(c: string): string {
    "style=\"color:" + c + "\""
  }

  /** `[l]` when `present`, else nothing. */
  function OptLayer(present: bool, l: Layer): seq<Layer> {
    if present then [l] else []
  }

  /** The colour span's layer; the encoder writes it only for a colour it shows. */
  function SpanLayer(c: Option<string>): Layer {
    Layer("span", if c.Some? then ColorAttrs(c.value) else "")
  }

  /** The layer for each tag `WrapRun` puts around a run of style `st`, outermost first. */
  function Layers(st: Style): seq<Layer> {
    OptLayer(ShowsColor(st.color), SpanLayer(st.color))
    + (OptLayer(st.underline, Layer("u", ""))
    + (OptLayer(st.strikethrough, Layer("s", ""))
    + (OptLayer(st.italic, Layer("i", ""))
    + OptLayer(st.bold, Layer("b", "")))))
  }

  /** The opening tags of `ls`, in order. */
  function OpenToks(ls: seq<Layer>): seq<Tok> {
    if ls == [] then [] else [Open(ls[0].name, ls[0].attrs)] + OpenToks(ls[1..])
  }

  /** The closing tags of `ls`, in the reverse order. */
  function CloseToks(ls: seq<Layer>): seq<Tok> {
    if ls == [] then [] else CloseToks(ls[1..]) + [Close(ls[0].name)]
  }

  /** The characters of `t`, one token each. */
  function ChrToks(t: string): seq<Tok> {
    if t == [] then [] else [Chr(t[0])] + ChrToks(t[1..])
  }

  /** The tokens of a run with text `t` and style `st`. */
  function RunToks(t: string, st: Style): seq<Tok> {
    OpenToks(Layers(st)) + (ChrToks(t) + CloseToks(Layers(st)))
  }

  /** The tokens of one run; a run with no text has none. */
  function TokensOfRun(v: RichTextValue, r: Run): seq<Tok>
    requires 0 <= r.start <= r.end <= |v.text|
  {
    if RunText(v, r) == "" then [] else RunToks(RunText(v, r), r.style)
  }

  /** The tokens of `runs`, in order. */
  function TokensOfRuns(v: RichTextValue, runs: seq<Run>): seq<Tok>
    requires forall r | r in runs :: 0 <= r.start <= r.end <= |v.text|
  {
    if runs == [] then [] else TokensOfRuns(v, runs[..|runs| - 1]) + TokensOfRun(v, runs[|runs| - 1])
  }

  /** A character the encoder writes as it is and the decoder reads as it is. */
  predicate PlainChar(c: char) {
    c != '<' && c != '>' && c != '&' && c != '\r' && c != '\n'
  }

  predicate PlainString(t: string) {
    forall k | 0 <= k < |t| :: PlainChar(t[k])
  }

  /** `#` and six lower-case hexadecimal digits: a colour `parseToHex` returns. */
  predicate HexColor(c: string) {
    |c| == 7 && c[0] == '#' && forall k | 1 <= k < 7 :: ColorFacts.Color.IsLowerHex(c[k])
  }

  /** A style whose colour, if any, is one `parseToHex` returns and the encoder writes. */
  predicate Representable(st: Style) {
    st.color.None? || (HexColor(st.color.value) && st.color.value != "#000000")
  }

  /* ---------- the text of the tokens ---------- */

  lemma {:induction false} OpenToksAppend(a: seq<Layer>, b: seq<Layer>)
    ensures OpenToks(a + b) == OpenToks(a) + OpenToks(b)
    decreases |a|
  {
    if a == [] {
      assert a + b == b;
    } else {
      assert (a + b)[0] == a[0] && (a + b)[1..] == a[1..] + b;
      OpenToksAppend(a[1..], b);
    }
  }

  lemma {:induction false} CloseToksAppend(a: seq<Layer>, b: seq<Layer>)
    ensures CloseToks(a + b) == CloseToks(b) + CloseToks(a)
    decreases |a|
  {
    if a == [] {
      assert a + b == b;
    } else {
      assert (a + b)[0] == a[0] && (a + b)[1..] == a[1..] + b;
      CloseToksAppend(a[1..], b);
    }
  }

  lemma {:induction false} ChrToksText(t: string)
    ensures Render(ChrToks(t)) == t && Chars(ChrToks(t)) == t
    decreases |t|
  {
    if t != [] {
      ChrToksText(t[1..]);
      assert Render([Chr(t[0])]) == [t[0]] + Render([]);
      assert Chars([Chr(t[0])]) == [t[0]] + Chars([]);
      RenderAppend([Chr(t[0])], ChrToks(t[1..]));
      CharsAppend([Chr(t[0])], ChrToks(t[1..]));
    }
  }

  lemma {:induction false} OpenToksChars(ls: seq<Layer>)
    ensures Chars(OpenToks(ls)) == ""
    decreases |ls|
  {
    if ls != [] {
      var o := OpenToks(ls);
      assert o[0].Open? && o[1..] == OpenToks(ls[1..]);
      OpenToksChars(ls[1..]);
    }
  }

  lemma {:induction false} CloseToksChars(ls: seq<Layer>)
    ensures Chars(CloseToks(ls)) == ""
    decreases |ls|
  {
    if ls != [] {
      var c := [Close(ls[0].name)];
      assert Chars(c) == "" + Chars(c[1..]) && c[1..] == [];
      CloseToksChars(ls[1..]);
      CharsAppend(CloseToks(ls[1..]), c);
    }
  }

  /** An optional layer's opening tag writes `Opt(present, tag)`. */
  lemma {:induction false} OptOpen(present: bool, l: Layer, tag: string)
    requires present ==> TokText(Open(l.name, l.attrs)) == tag
    ensures Render(OpenToks(OptLayer(present, l))) == Opt(present, tag)
  {
    if present {
      assert OpenToks([l]) == [Open(l.name, l.attrs)] + OpenToks([]);
    }
  }

  /** An optional layer's closing tag writes `Opt(present, tag)`. */
  lemma {:induction false} OptClose(present: bool, l: Layer, tag: string)
    requires present ==> TokText(Close(l.name)) == tag
    ensures Render(CloseToks(OptLayer(present, l))) == Opt(present, tag)
  {
    if present {
      assert CloseToks([l]) == CloseToks([]) + [Close(l.name)];
    }
  }

  /** The opening tags of five groups of layers, in order. */
  lemma {:induction false} OpenFive(a: seq<Layer>, b: seq<Layer>, c: seq<Layer>, d: seq<Layer>, e: seq<Layer>)
    ensures Render(OpenToks(a + (b + (c + (d + e)))))
      == Render(OpenToks(a)) + (Render(OpenToks(b)) + (Render(OpenToks(c)) + (Render(OpenToks(d)) + Render(OpenToks(e)))))
  {
    OpenToksAppend(d, e);
    RenderAppend(OpenToks(d), OpenToks(e));
    OpenToksAppend(c, d + e);
    RenderAppend(OpenToks(c), OpenToks(d + e));
    OpenToksAppend(b, c + (d + e));
    RenderAppend(OpenToks(b), OpenToks(c + (d + e)));
    OpenToksAppend(a, b + (c + (d + e)));
    RenderAppend(OpenToks(a), OpenToks(b + (c + (d + e))));
  }

  /** The closing tags of five groups of layers, in the reverse order. */
  lemma {:induction false} CloseFive(a: seq<Layer>, b: seq<Layer>, c: seq<Layer>, d: seq<Layer>, e: seq<Layer>)
    ensures Render(CloseToks(a + (b + (c + (d + e)))))
      == (((Render(CloseToks(e)) + Render(CloseToks(d))) + Render(CloseToks(c))) + Render(CloseToks(b))) + Render(CloseToks(a))
  {
    CloseToksAppend(d, e);
    RenderAppend(CloseToks(e), CloseToks(d));
    CloseToksAppend(c, d + e);
    RenderAppend(CloseToks(d + e), CloseToks(c));
    CloseToksAppend(b, c + (d + e));
    RenderAppend(CloseToks(c + (d + e)), CloseToks(b));
    CloseToksAppend(a, b + (c + (d + e)));
    RenderAppend(CloseToks(b + (c + (d + e))), CloseToks(a));
  }

  lemma {:induction false} SpanText(c: string)
    ensures TokText(Open("span", ColorAttrs(c))) == SpanOpen(c)
  {
    var pre, q := "style=\"color:", "\"";
    var x := "<" + "span" + " ";
    assert x + pre == "<span style=\"color:";
    assert q + ">" == "\">";
    AppendAssoc(x, pre + c, q);
    AppendAssoc(x + (pre + c), q, ">");
    AppendAssoc(x, pre, c);
    AppendAssoc(x + pre, c, q + ">");
  }

  lemma {:induction false} FixedTexts()
    ensures TokText(Open("u", "")) == "<u>" && TokText(Open("s", "")) == "<s>"
    ensures TokText(Open("i", "")) == "<i>" && TokText(Open("b", "")) == "<b>"
    ensures TokText(Close("u")) == "</u>" && TokText(Close("s")) == "</s>"
    ensures TokText(Close("i")) == "</i>" && TokText(Close("b")) == "</b>"
    ensures TokText(Close("span")) == "</span>"
  {
  }

  /** The opening tokens of a style write `Opens(st)`, and hold no characters. */
  lemma {:induction false} OpensText(st: Style)
    ensures Render(OpenToks(Layers(st))) == Opens(st) && Chars(OpenToks(Layers(st))) == ""
  {
    var sp := ShowsColor(st.color);
    FixedTexts();
    if sp {
      SpanText(st.color.value);
    }
    OptOpen(sp, SpanLayer(st.color), if sp then SpanOpen(st.color.value) else "");
    OptOpen(st.underline, Layer("u", ""), "<u>");
    OptOpen(st.strikethrough, Layer("s", ""), "<s>");
    OptOpen(st.italic, Layer("i", ""), "<i>");
    OptOpen(st.bold, Layer("b", ""), "<b>");
    OpenFive(OptLayer(sp, SpanLayer(st.color)), OptLayer(st.underline, Layer("u", "")),
      OptLayer(st.strikethrough, Layer("s", "")), OptLayer(st.italic, Layer("i", "")), OptLayer(st.bold, Layer("b", "")));
    OpenToksChars(Layers(st));
  }

  /** The closing tokens of a style write `Closes(st)`, and hold no characters. */
  lemma {:induction false} ClosesText(st: Style)
    ensures Render(CloseToks(Layers(st))) == Closes(st) && Chars(CloseToks(Layers(st))) == ""
  {
    var sp := ShowsColor(st.color);
    FixedTexts();
    OptClose(sp, SpanLayer(st.color), "</span>");
    OptClose(st.underline, Layer("u", ""), "</u>");
    OptClose(st.strikethrough, Layer("s", ""), "</s>");
    OptClose(st.italic, Layer("i", ""), "</i>");
    OptClose(st.bold, Layer("b", ""), "</b>");
    CloseFive(OptLayer(sp, SpanLayer(st.color)), OptLayer(st.underline, Layer("u", "")),
      OptLayer(st.strikethrough, Layer("s", "")), OptLayer(st.italic, Layer("i", "")), OptLayer(st.bold, Layer("b", "")));
    CloseToksChars(Layers(st));
  }

  /** The tokens of a run write what `WrapRun` writes, and hold the run's characters. */
  lemma {:induction false} RunToksText(t: string, st: Style)
    ensures Render(RunToks(t, st)) == WrapRun(t, st) && Chars(RunToks(t, st)) == t
  {
    var o, x, c := OpenToks(Layers(st)), ChrToks(t), CloseToks(Layers(st));
    RenderAppend(o, x + c);
    RenderAppend(x, c);
    CharsAppend(o, x + c);
    CharsAppend(x, c);
    OpensText(st);
    ClosesText(st);
    ChrToksText(t);
    WrapNesting(t, st);
    AppendAssoc(Opens(st), t, Closes(st));
    assert "" + (t + "") == t;
  }

  /* ---------- the tokens of a value ---------- */

  /** Text with no `&`, `<` or `>` is its own escape. */
  lemma {:induction false} EscapeOfPlain(t: string)
    requires PlainString(t)
    ensures EscapeHtml(t) == t
  {
    assert '&' !in t && '<' !in t && '>' !in t;
    ReplaceCharString(t, '&', "&amp;");
    ReplaceCharString(t, '<', "&lt;");
    ReplaceCharString(t, '>', "&gt;");
  }

  lemma {:induction false} PlainSlice(v: RichTextValue, r: Run)
    requires 0 <= r.start <= r.end <= |v.text| && PlainString(v.text)
    ensures PlainString(RunText(v, r))
  {
    var t := RunText(v, r);
    forall k | 0 <= k < |t|
      ensures PlainChar(t[k])
    {
      assert t[k] == v.text[r.start + k];
    }
  }

  /** One run's tokens write its fragment and hold its text. */
  lemma {:induction false} RunFragment(v: RichTextValue, r: Run)
    requires 0 <= r.start <= r.end <= |v.text| && PlainString(v.text)
    ensures Render(TokensOfRun(v, r)) == Fragment(v, r) && Chars(TokensOfRun(v, r)) == RunText(v, r)
  {
    var t := RunText(v, r);
    if t != "" {
      PlainSlice(v, r);
      EscapeOfPlain(t);
      RunToksText(t, r.style);
    }
  }

  /** The tokens of the runs write their fragments and hold their texts. */
  lemma {:induction false} TokensOfRunsText(v: RichTextValue, runs: seq<Run>)
    requires forall r | r in runs :: 0 <= r.start <= r.end <= |v.text|
    requires PlainString(v.text)
    ensures Render(TokensOfRuns(v, runs)) == Fragments(v, runs)
    ensures Chars(TokensOfRuns(v, runs)) == RunTexts(v, runs)
    decreases |runs|
  {
    if runs != [] {
      var pre, last := runs[..|runs| - 1], runs[|runs| - 1];
      assert last in runs;
      assert forall r | r in pre :: r in runs;
      var a := TokensOfRuns(v, pre);
      var b := TokensOfRun(v, last);
      TokensOfRunsText(v, pre);
      RunFragment(v, last);
      RenderAppend(a, b);
      CharsAppend(a, b);
    }
  }

  /* ---------- the tokens are ones the scan reads back ---------- */

  /** A layer whose opening and closing tags the scan reads as tags. */
  predicate GoodLayer(l: Layer) {
    GoodTok(Open(l.name, l.attrs)) && GoodTok(Close(l.name))
  }

  predicate GoodLayers(ls: seq<Layer>) {
    ls == [] || (GoodLayer(ls[0]) && GoodLayers(ls[1..]))
  }

  lemma {:induction false} NoAnglesOf(a: string)
    requires forall k | 0 <= k < |a| :: a[k] != '<' && a[k] != '>'
    ensures NoAngles(a)
    decreases |a|
  {
    if a != [] {
      NoAnglesOf(a[1..]);
    }
  }

  /** The colour span's attributes hold no angle bracket and start with a letter. */
  lemma {:induction false} ColorAttrsGood(c: string)
    requires HexColor(c)
    ensures ColorAttrs(c) != [] && NoAngles(ColorAttrs(c)) && !IsSpace(ColorAttrs(c)[0])
  {
    var a := ColorAttrs(c);
    var pre := "style=\"color:";
    assert a == pre + c + "\"";
    forall k | 0 <= k < |a|
      ensures a[k] != '<' && a[k] != '>'
    {
      if k < |pre| {
        assert a[k] == pre[k];
      } else if k < |pre| + 7 {
        assert a[k] == c[k - |pre|];
      } else {
        assert a[k] == '"';
      }
    }
    NoAnglesOf(a);
  }

  lemma {:induction false} FixedLayersGood()
    ensures GoodLayer(Layer("u", "")) && GoodLayer(Layer("s", ""))
    ensures GoodLayer(Layer("i", "")) && GoodLayer(Layer("b", ""))
  {
    assert LowerAlnum("u"[1..]) && LowerAlnum("s"[1..]) && LowerAlnum("i"[1..]) && LowerAlnum("b"[1..]);
  }

  lemma {:induction false} SpanLayerGood(c: string)
    requires HexColor(c)
    ensures GoodLayer(Layer("span", ColorAttrs(c)))
  {
    ColorAttrsGood(c);
    var n := "span";
    assert LowerAlnum(n[4..]);
    assert LowerAlnum(n[3..]);
    assert LowerAlnum(n[2..]);
    assert LowerAlnum(n[1..]);
  }

  lemma {:induction false} GoodLayersCons(present: bool, l: Layer, rest: seq<Layer>)
    requires present ==> GoodLayer(l)
    requires GoodLayers(rest)
    ensures GoodLayers(OptLayer(present, l) + rest)
  {
    if present {
      assert ([l] + rest)[1..] == rest;
    } else {
      assert [] + rest == rest;
    }
  }

  /** The layers of a representable style are all good. */
  lemma {:induction false} LayersGood(st: Style)
    requires Representable(st)
    ensures GoodLayers(Layers(st))
  {
    var sp := ShowsColor(st.color);
    var lb := OptLayer(st.bold, Layer("b", ""));
    var li := OptLayer(st.italic, Layer("i", "")) + lb;
    var ls := OptLayer(st.strikethrough, Layer("s", "")) + li;
    var lu := OptLayer(st.underline, Layer("u", "")) + ls;
    FixedLayersGood();
    if sp {
      SpanLayerGood(st.color.value);
    }
    assert lb == lb + [];
    GoodLayersCons(st.bold, Layer("b", ""), []);
    GoodLayersCons(st.italic, Layer("i", ""), lb);
    GoodLayersCons(st.strikethrough, Layer("s", ""), li);
    GoodLayersCons(st.underline, Layer("u", ""), ls);
    GoodLayersCons(sp, SpanLayer(st.color), lu);
  }

  lemma {:induction false} OpenToksGood(ls: seq<Layer>)
    requires GoodLayers(ls)
    ensures GoodToks(OpenToks(ls))
    decreases |ls|
  {
    if ls != [] {
      OpenToksGood(ls[1..]);
      var t := [Open(ls[0].name, ls[0].attrs)];
      assert GoodToks(t) by { assert t[1..] == []; }
      GoodToksAppend(t, OpenToks(ls[1..]));
    }
  }

  lemma {:induction false} CloseToksGood(ls: seq<Layer>)
    requires GoodLayers(ls)
    ensures GoodToks(CloseToks(ls))
    decreases |ls|
  {
    if ls != [] {
      CloseToksGood(ls[1..]);
      var t := [Close(ls[0].name)];
      assert GoodToks(t) by { assert t[1..] == []; }
      GoodToksAppend(CloseToks(ls[1..]), t);
    }
  }

  lemma {:induction false} ChrToksGood(t: string)
    requires PlainString(t)
    ensures GoodToks(ChrToks(t))
    decreases |t|
  {
    if t != [] {
      assert PlainChar(t[0]);
      assert PlainString(t[1..]) by {
        forall k | 0 <= k < |t| - 1 ensures PlainChar(t[1..][k]) {
          assert t[1..][k] == t[k + 1];
        }
      }
      ChrToksGood(t[1..]);
      var c := [Chr(t[0])];
      assert GoodToks(c) by { assert c[1..] == []; }
      GoodToksAppend(c, ChrToks(t[1..]));
    }
  }

  lemma {:induction false} RunToksGood(t: string, st: Style)
    requires PlainString(t) && Representable(st)
    ensures GoodToks(RunToks(t, st))
  {
    LayersGood(st);
    OpenToksGood(Layers(st));
    CloseToksGood(Layers(st));
    ChrToksGood(t);
    GoodToksAppend(ChrToks(t), CloseToks(Layers(st)));
    GoodToksAppend(OpenToks(Layers(st)), ChrToks(t) + CloseToks(Layers(st)));
  }

  lemma {:induction false} TokensOfRunsGood(v: RichTextValue, runs: seq<Run>)
    requires forall r | r in runs :: 0 <= r.start <= r.end <= |v.text| && Representable(r.style)
    requires PlainString(v.text)
    ensures GoodToks(TokensOfRuns(v, runs))
    decreases |runs|
  {
    if runs != [] {
      var pre, last := runs[..|runs| - 1], runs[|runs| - 1];
      assert last in runs;
      assert forall r | r in pre :: r in runs;
      TokensOfRunsGood(v, pre);
      LastRunGood(v, last);
      GoodToksAppend(TokensOfRuns(v, pre), TokensOfRun(v, last));
    }
  }

  lemma {:induction false} LastRunGood(v: RichTextValue, r: Run)
    requires 0 <= r.start <= r.end <= |v.text| && Representable(r.style)
    requires PlainString(v.text)
    ensures GoodToks(TokensOfRun(v, r))
  {
    if RunText(v, r) != "" {
      PlainSlice(v, r);
      RunToksGood(RunText(v, r), r.style);
    }
  }

  /* ---------- the encoding is the tokens ---------- */

  lemma {:induction false} PlainNoBreaks(t: string)
    requires PlainString(t)
    ensures NoBreaks(t)
  {
    assert forall k | 0 <= k < |t| :: PlainChar(t[k]);
  }

  lemma {:induction false} HexColorClean(st: Style)
    requires Representable(st)
    ensures CleanColor(st.color)
  {
    if st.color.Some? {
      var c := st.color.value;
      assert forall k | 0 <= k < |c| :: c[k] == '#' || ColorFacts.Color.IsLowerHex(c[k]);
    }
  }

  lemma {:induction false} FragmentNoBreaks(v: RichTextValue, r: Run)
    requires 0 <= r.start <= r.end <= |v.text| && Representable(r.style)
    requires PlainString(v.text)
    ensures NoBreaks(Fragment(v, r))
  {
    var t := RunText(v, r);
    if t != "" {
      PlainSlice(v, r);
      PlainNoBreaks(t);
      EscapeOfPlain(t);
      HexColorClean(r.style);
      TagsHaveNoBreaks(r.style);
      WrapNesting(t, r.style);
    }
  }

  lemma {:induction false} FragmentsNoBreaks(v: RichTextValue, runs: seq<Run>)
    requires forall r | r in runs :: 0 <= r.start <= r.end <= |v.text| && Representable(r.style)
    requires PlainString(v.text)
    ensures NoBreaks(Fragments(v, runs))
    decreases |runs|
  {
    if runs != [] {
      var pre, last := runs[..|runs| - 1], runs[|runs| - 1];
      assert last in runs;
      assert forall r | r in pre :: r in runs;
      FragmentsNoBreaks(v, pre);
      FragmentNoBreaks(v, last);
    }
  }

  /**
   * The HTML `richTextToHtml` writes for a value with runs, plain text and
   * representable styles is the rendering of its tokens, which the scan
   * reads as tags and characters, and which hold the runs' texts.
   */
  lemma {:induction false} EncodingIsTokens(v: RichTextValue)
    requires WellFormed(v) && v.runs != [] && PlainString(v.text)
    requires forall r | r in v.runs :: Representable(r.style)
    ensures Encode(Rich(v)) == Render(TokensOfRuns(v, v.runs))
    ensures GoodToks(TokensOfRuns(v, v.runs))
    ensures Chars(TokensOfRuns(v, v.runs)) == RunTexts(v, v.runs)
  {
    TokensOfRunsText(v, v.runs);
    TokensOfRunsGood(v, v.runs);
    FragmentsNoBreaks(v, v.runs);
    BreakLinesFresh(Fragments(v, v.runs));
  }
}
