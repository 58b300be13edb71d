/**
 * The styled round trip: `htmlToRichText(richTextToHtml(v))` gives back
 * the text of `v` and exactly its styled runs, for every value whose runs
 * cover the text without empty runs, whose neighbouring runs differ in
 * style, whose colours are lower-case `#rrggbb` other than `#000000`, and
 * whose text has no `<`, `>`, `&` or line break.
 */
module StyledRoundTrip {
  import opened RichText
  import opened StyleObject
  import opened PlainText
  import opened TagScan
  import opened Encoder
  import opened EncoderFacts
  import opened Decoder
  import opened DecoderFacts
  import opened HtmlTokens
  import opened RunTokens
  import opened RunScan

  /** The runs of `runs` that set some style, in order: the ones the decoder reports. */
  function Styled(runs: seq<Run>): (s: seq<Run>)
    ensures |s| <= |runs|
    ensures forall r | r in s :: r in runs && HasStyle(r.style)
  {
    if runs == [] then []
    else
      var rest := Styled(runs[..|runs| - 1]);
      if HasStyle(runs[|runs| - 1].style) then rest + [runs[|runs| - 1]] else rest
  }

  /**
   * Runs that the decoder can tell apart: they cover the text, none is
   * empty, neighbours differ in style, and every style has a form the
   * decoder reads back.
   */
  predicate Separable(v: RichTextValue) {
    && CoversText(v)
    && (forall i | 0 <= i < |v.runs| :: v.runs[i].start < v.runs[i].end && Representable(v.runs[i].style))
    && (forall i | 0 <= i < |v.runs| - 1 :: v.runs[i].style != v.runs[i + 1].style)
  }

  /** The values the round trip gives back exactly: separable runs over a text that needs no escaping and has no line break. */
  predicate Faithful(v: RichTextValue) {
    Separable(v) && PlainString(v.text)
  }

  lemma {:induction false} AllRepresentable(v: RichTextValue)
    requires Faithful(v)
    ensures forall r | r in v.runs :: Representable(r.style)
  {
    forall r | r in v.runs
      ensures Representable(r.style)
    {
      var i :| 0 <= i < |v.runs| && v.runs[i] == r;
    }
  }

  /** The characters of the runs' tokens are the text. */
  lemma {:induction false} TokensText(v: RichTextValue)
    requires Faithful(v)
    ensures GoodToks(TokensOfRuns(v, v.runs)) && Chars(TokensOfRuns(v, v.runs)) == v.text
  {
    AllRepresentable(v);
    EncodingIsTokens(v);
    RunTextsAll(v);
  }

  /** The texts of all the runs of a covering value are its text. */
  lemma {:induction false} RunTextsAll(v: RichTextValue)
    requires CoversText(v)
    ensures RunTexts(v, v.runs) == v.text
  {
    RunTextsOfCover(v, |v.runs|);
    assert v.runs[..|v.runs|] == v.runs;
    assert v.text[0..|v.text|] == v.text;
  }

  /** The scan of all the runs' tokens paints every run, one after another. */
  lemma {:induction false} ScanAllRuns(v: RichTextValue, styles: seq<StyleObj>)
    requires Faithful(v)
    ensures ScanToks(TokensOfRuns(v, v.runs), ScanState([], styles), 0, TokStep) == ScanState([], PaintRuns(styles, v.runs))
  {
    AllRepresentable(v);
    ScanRuns(v, |v.runs|, styles);
    assert v.runs[..|v.runs|] == v.runs;
  }

  /** HTML that renders good tokens reads back as their characters. */
  lemma {:induction false} TextOfTokens(html: string, toks: seq<Tok>, t: string)
    requires GoodToks(toks) && html == Render(toks) && Chars(toks) == t
    ensures ToPlainText(html) == t
  {
    PlainOfRender(toks);
  }

  /** HTML that renders good tokens gets the objects their scan leaves. */
  lemma {:induction false} StylesOfTokens(html: string, toks: seq<Tok>, n: nat, g: seq<StyleObj>)
    requires GoodToks(toks) && html == Render(toks) && n == |Chars(toks)|
    requires ScanToks(toks, ScanState([], InitialStyles(n)), 0, TokStep) == ScanState([], g)
    ensures CharStyles(html) == g
  {
    CharStylesOfTokens(toks);
  }

  /** The encoding reads back as the text. */
  lemma {:induction false} EncodingText(v: RichTextValue)
    requires Faithful(v)
    ensures ToPlainText(Encode(Rich(v))) == v.text
  {
    AllRepresentable(v);
    EncodingIsTokens(v);
    TokensText(v);
    TextOfTokens(Encode(Rich(v)), TokensOfRuns(v, v.runs), v.text);
  }

  /** The decoder's objects for the encoding are the runs' objects painted one after another. */
  lemma {:induction false} EncodingPaint(v: RichTextValue)
    requires Faithful(v)
    ensures CharStyles(Encode(Rich(v))) == PaintRuns(InitialStyles(|v.text|), v.runs)
  {
    AllRepresentable(v);
    EncodingIsTokens(v);
    TokensText(v);
    ScanAllRuns(v, InitialStyles(|v.text|));
    StylesOfTokens(Encode(Rich(v)), TokensOfRuns(v, v.runs), |v.text|, PaintRuns(InitialStyles(|v.text|), v.runs));
  }

  /** The encoding reads back as the text, with the objects of the runs painted one after another. */
  lemma {:induction false} EncodingStyles(v: RichTextValue)
    requires Faithful(v)
    ensures ToPlainText(Encode(Rich(v))) == v.text
    ensures CharStyles(Encode(Rich(v))) == PaintRuns(InitialStyles(|v.text|), v.runs)
  {
    EncodingText(v);
    EncodingPaint(v);
  }

  /** Every character of the encoding has the object of the run it lies in. */
  lemma {:induction false} EncodingObjects(v: RichTextValue, i: nat, j: nat)
    requires Faithful(v) && i < |v.runs| && v.runs[i].start <= j < v.runs[i].end
    ensures j < |CharStyles(Encode(Rich(v)))|
    ensures CharStyles(Encode(Rich(v)))[j] == ObjectOf(v.runs[i].style)
  {
    EncodingPaint(v);
    assert v.runs[i] in v.runs;
    CoverInOrder(v);
    PaintedAt(v.runs, InitialStyles(|v.text|), i, j, v.runs[i].style);
  }

  /**
   * In `g`, the characters of each run of `v` share the object at the
   * run's start, and that object carries the run's style.
   */
  predicate Painted(v: RichTextValue, g: seq<StyleObj>) {
    && |g| == |v.text|
    && forall i, j | 0 <= i < |v.runs| && 0 <= v.runs[i].start <= j < v.runs[i].end && j < |g| ::
         g[j] == g[v.runs[i].start] && ToStyle(g[j]) == v.runs[i].style
  }

  /** Character `j` of run `i` of the encoding holds the same object as the run's first character. */
  lemma {:induction false} EncodingSameObject(v: RichTextValue, i: nat, j: nat)
    requires Faithful(v) && i < |v.runs| && v.runs[i].start <= j < v.runs[i].end
    ensures 0 <= v.runs[i].start <= j < |CharStyles(Encode(Rich(v)))|
    ensures CharStyles(Encode(Rich(v)))[j] == CharStyles(Encode(Rich(v)))[v.runs[i].start]
  {
    assert v.runs[i] in v.runs;
    EncodingObjects(v, i, j);
    EncodingObjects(v, i, v.runs[i].start);
  }

  /** The object of the first character of run `i` of the encoding carries the run's style. */
  lemma {:induction false} EncodingStartStyle(v: RichTextValue, i: nat)
    requires Faithful(v) && i < |v.runs|
    ensures 0 <= v.runs[i].start < |CharStyles(Encode(Rich(v)))|
    ensures ToStyle(CharStyles(Encode(Rich(v)))[v.runs[i].start]) == v.runs[i].style
  {
    assert v.runs[i] in v.runs;
    EncodingObjects(v, i, v.runs[i].start);
    ObjectOfStyle(v.runs[i].style);
  }

  /** The decoder's objects for the encoding are painted by the runs. */
  lemma {:induction false} EncodingPainted(v: RichTextValue)
    requires Faithful(v)
    ensures Painted(v, CharStyles(Encode(Rich(v))))
  {
    EncodingStyles(v);
    forall i, j | 0 <= i < |v.runs| && 0 <= v.runs[i].start <= j < v.runs[i].end && j < |CharStyles(Encode(Rich(v)))|
      ensures CharStyles(Encode(Rich(v)))[j] == CharStyles(Encode(Rich(v)))[v.runs[i].start]
      ensures ToStyle(CharStyles(Encode(Rich(v)))[j]) == v.runs[i].style
    {
      EncodingSameObject(v, i, j);
      EncodingStartStyle(v, i);
    }
  }

  /** Every character of `[s, e)` has the object `o`. */
  predicate Uniform(g: seq<StyleObj>, s: int, e: int, o: StyleObj) {
    forall j | s <= j < e && 0 <= j < |g| :: g[j] == o
  }

  /** Run `k` lies within `g` and holds one object all along, which carries its style. */
  lemma {:induction false} RunHoldsObject(v: RichTextValue, g: seq<StyleObj>, k: nat)
    requires Separable(v) && Painted(v, g) && k < |v.runs|
    ensures 0 <= v.runs[k].start < v.runs[k].end <= |g|
    ensures Uniform(g, v.runs[k].start, v.runs[k].end, g[v.runs[k].start])
    ensures ToStyle(g[v.runs[k].start]) == v.runs[k].style
  {
    assert v.runs[k] in v.runs;
  }

  /** Run `k` starts the text, or the character before it belongs to run `k - 1`, whose style differs. */
  lemma {:induction false} RunLeftEdge(v: RichTextValue, g: seq<StyleObj>, k: nat)
    requires Separable(v) && Painted(v, g) && k < |v.runs|
    requires 0 <= v.runs[k].start < |g|
    ensures v.runs[k].start == 0 || g[v.runs[k].start - 1] != g[v.runs[k].start]
  {
    if k > 0 {
      CoverStep(v, k - 1);
      RunHoldsObject(v, g, k - 1);
      RunHoldsObject(v, g, k);
    }
  }

  /** Run `k` ends the text, or the character after it belongs to run `k + 1`, whose style differs. */
  lemma {:induction false} RunRightEdge(v: RichTextValue, g: seq<StyleObj>, k: nat)
    requires Separable(v) && Painted(v, g) && k < |v.runs|
    requires 0 <= v.runs[k].start < v.runs[k].end <= |g|
    ensures v.runs[k].end == |g| || g[v.runs[k].end] != g[v.runs[k].start]
  {
    if k + 1 < |v.runs| {
      CoverStep(v, k);
      RunHoldsObject(v, g, k);
      RunHoldsObject(v, g, k + 1);
    }
  }

  /**
   * A stretch holding one object of style `st`, with other objects (or the
   * ends) on both sides, is a maximal block carrying `st`.
   */
  lemma {:induction false} BlockOfEdges(g: seq<StyleObj>, s: nat, e: nat, st: Style)
    requires s < e <= |g| && Uniform(g, s, e, g[s])
    requires s == 0 || g[s - 1] != g[s]
    requires e == |g| || g[e] != g[s]
    requires ToStyle(g[s]) == st
    ensures MaximalBlock(g, s, e) && ToStyle(g[s]) == st
  {
  }

  /** Each run of a separable value is a maximal block of painted objects, carrying its style. */
  lemma {:induction false} RunIsBlock(v: RichTextValue, g: seq<StyleObj>, k: nat)
    requires Separable(v) && Painted(v, g) && k < |v.runs|
    ensures MaximalBlock(g, v.runs[k].start, v.runs[k].end) && ToStyle(g[v.runs[k].start]) == v.runs[k].style
  {
    RunHoldsObject(v, g, k);
    RunLeftEdge(v, g, k);
    RunRightEdge(v, g, k);
    BlockOfEdges(g, v.runs[k].start, v.runs[k].end, v.runs[k].style);
  }

  /** Run `k - 1` extends the decoder's runs from where it starts to where it ends. */
  lemma {:induction false} CoalescedStep(v: RichTextValue, g: seq<StyleObj>, k: nat)
    requires Separable(v) && Painted(v, g) && 0 < k <= |v.runs|
    requires CoalescedUpTo(g, Styled(v.runs[..k - 1]), v.runs[k - 1].start)
    ensures CoalescedUpTo(g, Styled(v.runs[..k]), v.runs[k - 1].end)
  {
    var r := v.runs[k - 1];
    RunIsBlock(v, g, k - 1);
    PrefixSnoc(v.runs, k);
    if HasStyle(r.style) {
      FlushStyled(g, Styled(v.runs[..k - 1]), r.start, r.end);
    } else {
      FlushPlain(g, Styled(v.runs[..k - 1]), r.start, r.end);
    }
  }

  /** The styled runs among the first `k` are the decoder's runs up to where run `k - 1` ends. */
  lemma {:induction false} CoalescedPrefix(v: RichTextValue, g: seq<StyleObj>, k: nat)
    requires Separable(v) && Painted(v, g) && k <= |v.runs|
    ensures CoalescedUpTo(g, Styled(v.runs[..k]), if k == 0 then 0 else v.runs[k - 1].end)
  {
    if k == 0 {
      assert v.runs[..0] == [];
    } else {
      CoalescedPrefix(v, g, k - 1);
      if k > 1 {
        CoverStep(v, k - 2);
      }
      CoalescedStep(v, g, k);
    }
  }

  /**
   * The styled round trip: the decoder reads the encoding of a faithful
   * value back as its text and exactly its styled runs.
   */
  lemma {:induction false} RoundTripRuns(v: RichTextValue)
    requires Faithful(v)
    ensures ToPlainText(Encode(Rich(v))) == v.text
    ensures Coalesced(CharStyles(Encode(Rich(v))), Styled(v.runs))
  {
    EncodingStyles(v);
    EncodingPainted(v);
    CoalescedPrefix(v, CharStyles(Encode(Rich(v))), |v.runs|);
    assert v.runs[..|v.runs|] == v.runs;
  }

  /** `htmlToRichText(richTextToHtml(v))` for a faithful value. */
  method RoundTrip(v: RichTextValue) returns (w: RichTextValue)
    requires Faithful(v)
    ensures w == RichTextValue(v.text, Styled(v.runs))
  {
    var html := RichTextToHtml(Rich(v));
    w := HtmlToRichText(html);
    RoundTripRuns(v);
    CoalescedUnique(CharStyles(html), w.runs, Styled(v.runs));
  }
}
