/**
 * What the tag scan of `htmlToRichText` (RichTextLib.js:77-130) does with
 * the tokens of the encoder's runs: each run's tags are pushed, its
 * characters pass, and its tags are closed innermost first, so that every
 * fragment is merged onto exactly the run's characters.
 */
module RunScan {
  import opened Wrappers
  import opened JsText
  import opened Color
  import opened ColorFacts
  import opened RichText
  import opened Encoder
  import opened EncoderFacts
  import opened StyleObject
  import opened StyleObjectFacts
  import opened TagScan
  import opened TagScanFacts
  import opened HtmlTokens
  import opened RunTokens

  /** The fragment a layer's opening tag pushes. */
  function LayerStyle(l: Layer): StyleObj {
    TagScan.Fragment(l.name, l.attrs)
  }

  /** `o` with the fragments of `ls` assigned onto it, innermost (last) first. */
  function Nested(o: StyleObj, ls: seq<Layer>): StyleObj {
    if ls == [] then o else Assign(Nested(o, ls[1..]), LayerStyle(ls[0]))
  }

  /** The styles after the layers `ls` around `[from, to)` have closed, innermost first. */
  function MergeNest(styles: seq<StyleObj>, from: nat, to: nat, ls: seq<Layer>): (r: seq<StyleObj>)
    ensures |r| == |styles|
  {
    if ls == [] then styles else Merge(MergeNest(styles, from, to, ls[1..]), from, to, LayerStyle(ls[0]))
  }

  /** The tokens of the layers `ls` around the text `t`. */
  function Nest(ls: seq<Layer>, t: string): seq<Tok> {
    OpenToks(ls) + (ChrToks(t) + CloseToks(ls))
  }

  /* ---------- one token at a time ---------- */

  lemma {:induction false} ScanOne(t: Tok, st: ScanState, offset: nat)
    ensures ScanToks([t], st, offset, TokStep) == TokStep(st, t, offset)
  {
    assert [t][1..] == [];
  }

  /** The characters of a run leave the scan as it is. */
  lemma {:induction false} ScanChrs(t: string, st: ScanState, offset: nat)
    ensures ScanToks(ChrToks(t), st, offset, TokStep) == st
    decreases |t|
  {
    if t != [] {
      assert ChrToks(t)[0] == Chr(t[0]) && ChrToks(t)[1..] == ChrToks(t[1..]);
      ScanChrs(t[1..], st, offset + 1);
    }
  }

  /** A layer's opening tag pushes its entry and its fragment. */
  lemma {:induction false} OpenLayer(l: Layer, stack: seq<OpenTag>, styles: seq<StyleObj>, offset: nat)
    requires GoodLayer(l)
    ensures ScanToks([Open(l.name, l.attrs)], ScanState(stack, styles), offset, TokStep)
      == ScanState(stack + [OpenTag(l.name, offset, LayerStyle(l))], styles)
  {
    ScanOne(Open(l.name, l.attrs), ScanState(stack, styles), offset);
    assert l.name[0] != '/' && l.name != "br";
    OpenPushes(ScanState(stack, styles), l.name, l.attrs, offset);
  }

  /** A layer's closing tag finds the entry on top and merges its fragment up to `offset`. */
  lemma {:induction false} CloseLayer(l: Layer, stack: seq<OpenTag>, styles: seq<StyleObj>, start: nat, offset: nat)
    ensures ScanToks([Close(l.name)], ScanState(stack + [OpenTag(l.name, start, LayerStyle(l))], styles), offset, TokStep)
      == ScanState(stack, Merge(styles, start, offset, LayerStyle(l)))
  {
    var s := stack + [OpenTag(l.name, start, LayerStyle(l))];
    ScanOne(Close(l.name), ScanState(s, styles), offset);
    CloseRemovesTopmost(ScanState(s, styles), l.name, "", offset, |stack|);
    assert s[..|stack|] + s[|stack| + 1..] == stack;
  }

  /** The nest of `ls` is the outer layer's tags around the nest of the rest. */
  lemma {:induction false} NestSplit(ls: seq<Layer>, t: string)
    requires ls != []
    ensures Nest(ls, t) == [Open(ls[0].name, ls[0].attrs)] + (Nest(ls[1..], t) + [Close(ls[0].name)])
  {
  }

  lemma {:induction false} NestChars(ls: seq<Layer>, t: string)
    ensures Chars(Nest(ls, t)) == t
  {
    OpenToksChars(ls);
    CloseToksChars(ls);
    ChrToksText(t);
    CharsAppend(ChrToks(t), CloseToks(ls));
    CharsAppend(OpenToks(ls), ChrToks(t) + CloseToks(ls));
  }

  /** Three pieces scanned one after the other. */
  lemma {:induction false} ScanThree(o: seq<Tok>, inner: seq<Tok>, c: seq<Tok>, from: nat, n: nat,
                  step: (ScanState, Tok, nat) -> ScanState, st0: ScanState, st1: ScanState, st2: ScanState, st3: ScanState)
    requires Chars(o) == "" && |Chars(inner)| == n
    requires ScanToks(o, st0, from, step) == st1
    requires ScanToks(inner, st1, from, step) == st2
    requires ScanToks(c, st2, from + n, step) == st3
    ensures ScanToks(o + (inner + c), st0, from, step) == st3
  {
    ScanToksAppend(o, inner + c, st0, from, step);
    ScanToksAppend(inner, c, st1, from, step);
  }

  lemma {:induction false} OpenNoChars(l: Layer)
    ensures Chars([Open(l.name, l.attrs)]) == ""
  {
    var o := [Open(l.name, l.attrs)];
    assert o[1..] == [];
  }

  /**
   * The scan of a nest begun at the plain offset `from` leaves the stack as
   * it found it and merges every layer's fragment onto the nest's
   * characters, innermost first.
   */
  lemma {:induction false} ScanNest(ls: seq<Layer>, t: string, stack: seq<OpenTag>, styles: seq<StyleObj>, from: nat, to: nat)
    requires GoodLayers(ls) && to == from + |t|
    ensures ScanToks(Nest(ls, t), ScanState(stack, styles), from, TokStep)
      == ScanState(stack, MergeNest(styles, from, to, ls))
    decreases |ls|
  {
    if ls == [] {
      ScanChrs(t, ScanState(stack, styles), from);
      assert Nest(ls, t) == ChrToks(t);
    } else {
      var l := ls[0];
      var pushed := stack + [OpenTag(l.name, from, LayerStyle(l))];
      var inner := MergeNest(styles, from, to, ls[1..]);
      NestSplit(ls, t);
      OpenNoChars(l);
      NestChars(ls[1..], t);
      OpenLayer(l, stack, styles, from);
      ScanNest(ls[1..], t, pushed, styles, from, to);
      CloseLayer(l, stack, inner, from, to);
      ScanThree([Open(l.name, l.attrs)], Nest(ls[1..], t), [Close(l.name)], from, |t|, TokStep,
        ScanState(stack, styles), ScanState(pushed, styles), ScanState(pushed, inner), ScanState(stack, Merge(inner, from, to, LayerStyle(l))));
    }
  }

  /* ---------- the runs, one after the other ---------- */

  /**
   * The styles after the tags of the run `r` have closed (a run with its
   * end before its start, which no value has, paints nothing).
   */
  function Paint(styles: seq<StyleObj>, r: Run): (p: seq<StyleObj>)
    ensures |p| == |styles|
  {
    if 0 <= r.start <= r.end then MergeNest(styles, r.start, r.end, Layers(r.style)) else styles
  }

  /** The styles after the tags of every run of `runs` have closed, in order. */
  function PaintRuns(styles: seq<StyleObj>, runs: seq<Run>): (p: seq<StyleObj>)
    ensures |p| == |styles|
  {
    if runs == [] then styles else Paint(PaintRuns(styles, runs[..|runs| - 1]), runs[|runs| - 1])
  }

  /** Merging onto no characters changes nothing. */
  lemma {:induction false} MergeNestEmpty(styles: seq<StyleObj>, at: nat, ls: seq<Layer>)
    ensures MergeNest(styles, at, at, ls) == styles
    decreases |ls|
  {
    if ls != [] {
      MergeNestEmpty(styles, at, ls[1..]);
      var m := Merge(styles, at, at, LayerStyle(ls[0]));
      assert forall j | 0 <= j < |styles| :: m[j] == styles[j];
    }
  }

  /** One run's tokens, scanned from its start, paint its characters and leave the stack empty. */
  lemma {:induction false} ScanRun(v: RichTextValue, r: Run, styles: seq<StyleObj>)
    requires 0 <= r.start <= r.end <= |v.text| && Representable(r.style)
    ensures ScanToks(TokensOfRun(v, r), ScanState([], styles), r.start, TokStep) == ScanState([], Paint(styles, r))
  {
    var t := RunText(v, r);
    if t == "" {
      ScanEmptyRun(v, r, styles);
    } else {
      var ls := Layers(r.style);
      LayersGood(r.style);
      assert TokensOfRun(v, r) == Nest(ls, t);
      assert r.start + |t| == r.end;
      ScanNest(ls, t, [], styles, r.start, r.end);
      ScanSame(TokensOfRun(v, r), Nest(ls, t), ScanState([], styles), r.start, TokStep, ScanState([], MergeNest(styles, r.start, r.end, ls)));
    }
  }

  lemma {:induction false} ScanEmptyRun(v: RichTextValue, r: Run, styles: seq<StyleObj>)
    requires 0 <= r.start <= r.end <= |v.text| && RunText(v, r) == ""
    ensures ScanToks(TokensOfRun(v, r), ScanState([], styles), r.start, TokStep) == ScanState([], Paint(styles, r))
  {
    assert r.start == r.end;
    MergeNestEmpty(styles, r.start, Layers(r.style));
    ScanSame(TokensOfRun(v, r), [], ScanState([], styles), r.start, TokStep, ScanState([], styles));
  }

  lemma {:induction false} ScanSame(a: seq<Tok>, b: seq<Tok>, st: ScanState, offset: nat, step: (ScanState, Tok, nat) -> ScanState, result: ScanState)
    requires a == b && ScanToks(b, st, offset, step) == result
    ensures ScanToks(a, st, offset, step) == result
  {
  }

  /** A prefix of the runs is the shorter prefix and one more run. */
  lemma {:induction false} PrefixSnoc(runs: seq<Run>, k: nat)
    requires 0 < k <= |runs|
    ensures runs[..k][..k - 1] == runs[..k - 1] && runs[..k][k - 1] == runs[k - 1]
    ensures forall r | r in runs[..k] :: r in runs
  {
  }

  /** The characters of the runs before run `k` end where run `k` starts. */
  lemma {:induction false} RunsOffset(v: RichTextValue, k: nat)
    requires CoversText(v) && k < |v.runs| && PlainString(v.text)
    ensures |Chars(TokensOfRuns(v, v.runs[..k]))| == v.runs[k].start
  {
    assert forall r | r in v.runs[..k] :: r in v.runs;
    TokensOfRunsText(v, v.runs[..k]);
    if k > 0 {
      RunTextsOfCover(v, k);
      assert v.runs[0] in v.runs && v.runs[k - 1] in v.runs;
    } else {
      assert v.runs[..0] == [];
    }
  }

  /** Two pieces scanned one after the other. */
  lemma {:induction false} ScanTwo(a: seq<Tok>, b: seq<Tok>, n: nat, step: (ScanState, Tok, nat) -> ScanState, st0: ScanState, st1: ScanState, st2: ScanState)
    requires |Chars(a)| == n
    requires ScanToks(a, st0, 0, step) == st1 && ScanToks(b, st1, n, step) == st2
    ensures ScanToks(a + b, st0, 0, step) == st2
  {
    ScanToksAppend(a, b, st0, 0, step);
  }

  /** The scan of the first `k` runs' tokens paints their characters, run after run. */
  lemma {:induction false} ScanRuns(v: RichTextValue, k: nat, styles: seq<StyleObj>)
    requires CoversText(v) && k <= |v.runs| && PlainString(v.text)
    requires forall r | r in v.runs :: Representable(r.style)
    ensures ScanToks(TokensOfRuns(v, v.runs[..k]), ScanState([], styles), 0, TokStep) == ScanState([], PaintRuns(styles, v.runs[..k]))
  {
    if k > 0 {
      var r := v.runs[k - 1];
      PrefixSnoc(v.runs, k);
      assert r in v.runs;
      var painted := PaintRuns(styles, v.runs[..k - 1]);
      assert TokensOfRuns(v, v.runs[..k]) == TokensOfRuns(v, v.runs[..k - 1]) + TokensOfRun(v, r);
      assert PaintRuns(styles, v.runs[..k]) == Paint(painted, r);
      ScanRuns(v, k - 1, styles);
      RunsOffset(v, k - 1);
      ScanRun(v, r, painted);
      ScanTwo(TokensOfRuns(v, v.runs[..k - 1]), TokensOfRun(v, r), r.start, TokStep,
        ScanState([], styles), ScanState([], painted), ScanState([], Paint(painted, r)));
    }
  }

  /* ---------- what each character ends up with ---------- */

  /** A character inside `[from, to)` gets the nested fragments over its object. */
  lemma {:induction false} MergeNestInside(styles: seq<StyleObj>, from: nat, to: nat, ls: seq<Layer>, j: nat)
    requires j < |styles| && from <= j < to
    ensures MergeNest(styles, from, to, ls)[j] == Nested(styles[j], ls)
    decreases |ls|
  {
    if ls != [] {
      MergeNestInside(styles, from, to, ls[1..], j);
    }
  }

  /** A character outside `[from, to)` keeps its object. */
  lemma {:induction false} MergeNestOutside(styles: seq<StyleObj>, from: nat, to: nat, ls: seq<Layer>, j: nat)
    requires j < |styles| && !(from <= j < to)
    ensures MergeNest(styles, from, to, ls)[j] == styles[j]
    decreases |ls|
  {
    if ls != [] {
      MergeNestOutside(styles, from, to, ls[1..], j);
    }
  }

  /** Runs that cover the text follow one another: an earlier run ends before a later one starts. */
  lemma {:induction false} CoverOrder(v: RichTextValue, i: nat, i2: nat)
    requires CoversText(v) && i < i2 < |v.runs|
    ensures v.runs[i].end <= v.runs[i2].start
    decreases i2 - i
  {
    if i + 1 < i2 {
      CoverOrder(v, i, i2 - 1);
      assert v.runs[i2 - 1] in v.runs;
    }
  }

  /** Neighbouring runs of a covering value meet, and each run ends after it starts. */
  lemma {:induction false} CoverStep(v: RichTextValue, i: nat)
    requires CoversText(v) && i + 1 < |v.runs|
    ensures v.runs[i].end == v.runs[i + 1].start <= v.runs[i + 1].end
  {
    assert v.runs[i + 1] in v.runs;
  }

  /** Runs that do not overlap, each from its start to its end, in text order. */
  predicate InOrder(runs: seq<Run>) {
    && (forall a | 0 <= a < |runs| :: 0 <= runs[a].start <= runs[a].end)
    && (forall a, b | 0 <= a < b < |runs| :: runs[a].end <= runs[b].start)
  }

  /** The runs of a covering value are in order. */
  lemma {:induction false} CoverInOrder(v: RichTextValue)
    requires CoversText(v)
    ensures InOrder(v.runs)
  {
    forall a | 0 <= a < |v.runs|
      ensures 0 <= v.runs[a].start <= v.runs[a].end
    {
      assert v.runs[a] in v.runs;
    }
    forall a, b | 0 <= a < b < |v.runs|
      ensures v.runs[a].end <= v.runs[b].start
    {
      CoverOrder(v, a, b);
    }
  }

  /** Dropping the last run keeps the rest in order, and they end where the last one starts. */
  lemma {:induction false} InOrderFront(runs: seq<Run>)
    requires InOrder(runs) && runs != []
    ensures InOrder(runs[..|runs| - 1])
    ensures |runs| == 1 || runs[|runs| - 2].end <= runs[|runs| - 1].start
  {
  }

  /** A character of run `r`, of style `st`, gets the run's tags over its object `o`. */
  lemma {:induction false} PaintInside(before: seq<StyleObj>, r: Run, j: nat, o: StyleObj, st: Style)
    requires j < |before| && 0 <= r.start <= j < r.end && before[j] == o && r.style == st
    ensures Paint(before, r)[j] == Nested(o, Layers(st))
  {
    MergeNestInside(before, r.start, r.end, Layers(r.style), j);
  }

  /** A character outside run `r` keeps its object. */
  lemma {:induction false} PaintOutside(before: seq<StyleObj>, r: Run, j: nat)
    requires j < |before| && !(r.start <= j < r.end)
    ensures Paint(before, r)[j] == before[j]
  {
    if 0 <= r.start <= r.end {
      MergeNestOutside(before, r.start, r.end, Layers(r.style), j);
    }
  }

  /** The runs are painted one after another: the last one over the others. */
  lemma {:induction false} PaintRunsLast(styles: seq<StyleObj>, runs: seq<Run>)
    requires runs != []
    ensures PaintRuns(styles, runs) == Paint(PaintRuns(styles, runs[..|runs| - 1]), runs[|runs| - 1])
  {
  }

  /** A character before the last run keeps the object the runs before it left. */
  lemma {:induction false} PaintBeforeLast(runs: seq<Run>, styles: seq<StyleObj>, j: nat)
    requires runs != [] && j < |styles| && j < runs[|runs| - 1].start <= runs[|runs| - 1].end
    ensures PaintRuns(styles, runs)[j] == PaintRuns(styles, runs[..|runs| - 1])[j]
  {
    PaintRunsLast(styles, runs);
    PaintOutside(PaintRuns(styles, runs[..|runs| - 1]), runs[|runs| - 1], j);
  }

  /** A character after the last run keeps the object the runs before it left. */
  lemma {:induction false} PaintAfterLast(runs: seq<Run>, styles: seq<StyleObj>, j: nat)
    requires runs != [] && j < |styles| && 0 <= runs[|runs| - 1].start <= runs[|runs| - 1].end <= j
    ensures PaintRuns(styles, runs)[j] == PaintRuns(styles, runs[..|runs| - 1])[j]
  {
    PaintRunsLast(styles, runs);
    PaintOutside(PaintRuns(styles, runs[..|runs| - 1]), runs[|runs| - 1], j);
  }

  /** A character of the last run gets the run's tags over the object the runs before it left. */
  lemma {:induction false} PaintInsideLast(runs: seq<Run>, styles: seq<StyleObj>, j: nat, o: StyleObj, st: Style)
    requires runs != [] && 0 <= runs[|runs| - 1].start && j < |styles|
    requires runs[|runs| - 1].start <= j < runs[|runs| - 1].end && runs[|runs| - 1].style == st
    requires PaintRuns(styles, runs[..|runs| - 1])[j] == o
    ensures PaintRuns(styles, runs)[j] == Nested(o, Layers(st))
  {
    PaintRunsLast(styles, runs);
    PaintInside(PaintRuns(styles, runs[..|runs| - 1]), runs[|runs| - 1], j, o, st);
  }

  /** A character after every run keeps its object. */
  lemma {:induction false} PaintedBeyond(runs: seq<Run>, styles: seq<StyleObj>, j: nat)
    requires InOrder(runs) && j < |styles|
    requires runs == [] || runs[|runs| - 1].end <= j
    ensures PaintRuns(styles, runs)[j] == styles[j]
    decreases |runs|
  {
    if runs != [] {
      InOrderFront(runs);
      assert 0 <= runs[|runs| - 1].start <= runs[|runs| - 1].end;
      PaintedBeyond(runs[..|runs| - 1], styles, j);
      PaintAfterLast(runs, styles, j);
    }
  }

  /** A character of run `i`, of style `st`, has its object with that style's tags nested onto it. */
  lemma {:induction false} PaintedAt(runs: seq<Run>, styles: seq<StyleObj>, i: nat, j: nat, st: Style)
    requires InOrder(runs) && i < |runs| && j < |styles|
    requires runs[i].start <= j < runs[i].end && runs[i].style == st
    ensures PaintRuns(styles, runs)[j] == Nested(styles[j], Layers(st))
    decreases |runs|
  {
    var front := runs[..|runs| - 1];
    InOrderFront(runs);
    assert 0 <= runs[|runs| - 1].start <= runs[|runs| - 1].end;
    if i == |runs| - 1 {
      PaintedBeyond(front, styles, j);
      PaintInsideLast(runs, styles, j, styles[j], st);
    } else {
      assert front[i] == runs[i];
      PaintedAt(front, styles, i, j, st);
      PaintBeforeLast(runs, styles, j);
    }
  }

  /* ---------- the fragments of the encoder's tags ---------- */

  /** No attributes: no `style` and no `color` attribute. */
  lemma {:induction false} NoAttrs()
    ensures StyleAttr("").None? && ColorAttr("").None?
  {
  }

  /** `<b>`, `<i>`, `<s>` and `<u>` push a fragment with just their flag. */
  lemma {:induction false} FlagFragment(n: string, k: Key)
    requires (n == "b" && k == BoldKey) || (n == "i" && k == ItalicKey)
      || (n == "s" && k == StrikethroughKey) || (n == "u" && k == UnderlineKey)
    ensures TagScan.Fragment(n, "") == SetFlag(Empty, k)
  {
    NoAttrs();
  }

  /** The colour span's `style` attribute holds `color:` and the colour. */
  lemma {:induction false} StyleOfColorAttrs(c: string)
    requires HexColor(c)
    ensures StyleAttr(ColorAttrs(c)) == Some("color:" + c)
  {
    var a := ColorAttrs(c);
    assert a == "style=\"color:" + c + "\"";
    assert a[..5] == "style";
    LowerOfLowerCase("style");
    assert a[5] == '=' && a[6] == '"';
    assert Span(a[5..], IsSpace) == 0;
    assert Span(a[6..], IsSpace) == 0;
    var body := a[7..];
    assert body == "color:" + c + "\"";
    forall k | 0 <= k < 13
      ensures NotQuote(body[k])
    {
      if k >= 6 {
        assert body[k] == c[k - 6];
      }
    }
    assert !NotQuote(body[13]);
    assert Span(body, NotQuote) == 13;
    assert a[7..20] == "color:" + c;
  }

  /** `#` and six lower-case hexadecimal digits read back as themselves. */
  lemma {:induction false} ParseOfHex(c: string)
    requires HexColor(c)
    ensures ParseToHex(Some(c)) == Some(c)
  {
    assert IsLowerCase(c) by {
      forall k | 0 <= k < |c| ensures LowerChar(c[k]) == c[k] {
      }
    }
    assert ';' !in c by {
      forall k | 0 <= k < |c| ensures c[k] != ';' {
      }
    }
    CanonicalOfClean(c);
    assert c[..7] == c;
  }

  /** The declaration `color:` names the colour. */
  lemma {:induction false} ColorOfDecl(c: string)
    requires HexColor(c)
    ensures ColorDecl("color:" + c) == Some(c)
  {
    var d := "color:" + c;
    assert d[..6] == "color:";
    LowerOfLowerCase("color:");
    assert d[6..] == c;
    assert Span(c, IsSpace) == 0;
    assert !StartsWithCI(c, "rgb") by {
      assert Lower(c[..3])[0] == LowerChar(c[0]);
    }
    forall k | 0 <= k < 6
      ensures IsHexDigitCI(c[1..][k])
    {
      assert c[1..][k] == c[k + 1];
    }
    assert Span(c[1..], IsHexDigitCI) == 6;
    assert c[..7] == c;
  }

  /** A test that needs the prefix `lit` finds nothing where no position starts it. */
  lemma {:induction false} NotOccursWithout(s: string, lit: string, at: string -> bool)
    requires lit != [] && forall x | at(x) :: StartsWithCI(x, lit)
    requires forall k | 0 <= k < |s| && |lit| <= |s| - k :: LowerChar(s[k]) != lit[0]
    ensures !Occurs(s, at)
    decreases |s|
  {
    if |lit| <= |s| {
      assert Lower(s[..|lit|])[0] == LowerChar(s[0]);
    }
    assert !at(s);
    if s != [] {
      forall k | 0 <= k < |s| - 1 && |lit| <= |s| - 1 - k
        ensures LowerChar(s[1..][k]) != lit[0]
      {
        assert s[1..][k] == s[k + 1];
      }
      NotOccursWithout(s[1..], lit, at);
    }
  }

  /** The declaration `color:` sets no flag: every flag test needs a longer text from where it could start. */
  lemma {:induction false} NoFlagDecls(c: string)
    requires HexColor(c)
    ensures var d := "color:" + c;
      !BoldDecl(d) && !ItalicDecl(d) && !LineThroughDecl(d) && !UnderlineDecl(d)
  {
    var d := "color:" + c;
    assert |d| == 13 && d[0] == 'c' && d[1] == 'o' && d[2] == 'l';
    NotOccursWithout(d, "font-weight:", BoldAt);
    NotOccursWithout(d, "font-style:", ItalicAt);
    NotOccursWithout(d, "text-decoration:", x => DecorationAt(x, "line-through"));
    NotOccursWithout(d, "text-decoration:", x => DecorationAt(x, "underline"));
  }

  /** The colour span pushes a fragment with just its colour. */
  lemma {:induction false} SpanFragment(c: string)
    requires HexColor(c)
    ensures TagScan.Fragment("span", ColorAttrs(c)) == SetColor(Empty, Some(c))
  {
    StyleOfColorAttrs(c);
    ColorOfDecl(c);
    ParseOfHex(c);
    NoFlagDecls(c);
  }

  /* ---------- the object of a run's characters ---------- */

  /** The object the characters of a run of style `st` end up with. */
  function ObjectOf(st: Style): StyleObj {
    Nested(Empty, Layers(st))
  }

  lemma {:induction false} NestedAppend(o: StyleObj, a: seq<Layer>, b: seq<Layer>)
    ensures Nested(o, a + b) == Nested(Nested(o, b), a)
    decreases |a|
  {
    if a == [] {
      assert a + b == b;
    } else {
      assert (a + b)[0] == a[0] && (a + b)[1..] == a[1..] + b;
      NestedAppend(o, a[1..], b);
    }
  }

  lemma {:induction false} NestedFive(o: StyleObj, a: seq<Layer>, b: seq<Layer>, c: seq<Layer>, d: seq<Layer>, e: seq<Layer>)
    ensures Nested(o, a + (b + (c + (d + e)))) == Nested(Nested(Nested(Nested(Nested(o, e), d), c), b), a)
  {
    NestedAppend(o, d, e);
    NestedAppend(o, c, d + e);
    NestedAppend(o, b, c + (d + e));
    NestedAppend(o, a, b + (c + (d + e)));
  }

  /** An optional layer assigns its fragment's properties over those of `p`. */
  lemma {:induction false} OptFields(p: StyleObj, present: bool, l: Layer)
    ensures var r, f := Nested(p, OptLayer(present, l)), LayerStyle(l);
      && r.color == (if present && f.color.Some? then f.color else p.color)
      && r.bold == (p.bold || (present && f.bold))
      && r.italic == (p.italic || (present && f.italic))
      && r.strikethrough == (p.strikethrough || (present && f.strikethrough))
      && r.underline == (p.underline || (present && f.underline))
  {
    if present {
      assert [l][1..] == [];
      AssignValues(p, LayerStyle(l));
    }
  }

  lemma {:induction false} FixedFragments()
    ensures var b := LayerStyle(Layer("b", "")); b.color.None? && b.bold && !b.italic && !b.strikethrough && !b.underline
    ensures var i := LayerStyle(Layer("i", "")); i.color.None? && !i.bold && i.italic && !i.strikethrough && !i.underline
    ensures var s := LayerStyle(Layer("s", "")); s.color.None? && !s.bold && !s.italic && s.strikethrough && !s.underline
    ensures var u := LayerStyle(Layer("u", "")); u.color.None? && !u.bold && !u.italic && !u.strikethrough && u.underline
  {
    FlagFragment("b", BoldKey);
    FlagFragment("i", ItalicKey);
    FlagFragment("s", StrikethroughKey);
    FlagFragment("u", UnderlineKey);
  }

  /** The object of a run's characters has exactly its style's properties. */
  lemma {:induction false} ObjectFields(st: Style)
    requires Representable(st)
    ensures ObjectOf(st).color == if st.color.Some? then Some(st.color) else None
    ensures ObjectOf(st).bold == st.bold && ObjectOf(st).italic == st.italic
    ensures ObjectOf(st).strikethrough == st.strikethrough && ObjectOf(st).underline == st.underline
  {
    var sp := ShowsColor(st.color);
    var a, b, c := OptLayer(sp, SpanLayer(st.color)), OptLayer(st.underline, Layer("u", "")), OptLayer(st.strikethrough, Layer("s", ""));
    var d, e := OptLayer(st.italic, Layer("i", "")), OptLayer(st.bold, Layer("b", ""));
    NestedFive(Empty, a, b, c, d, e);
    var oe := Nested(Empty, e);
    var od := Nested(oe, d);
    var oc := Nested(od, c);
    var ob := Nested(oc, b);
    FixedFragments();
    if sp {
      SpanFragment(st.color.value);
    }
    OptFields(Empty, st.bold, Layer("b", ""));
    OptFields(oe, st.italic, Layer("i", ""));
    OptFields(od, st.strikethrough, Layer("s", ""));
    OptFields(oc, st.underline, Layer("u", ""));
    OptFields(ob, sp, SpanLayer(st.color));
    assert st.color.Some? ==> sp;
  }

  /**
   * The object of a run's characters holds exactly its style: the tags the
   * encoder writes for a representable style decode to that style.
   */
  lemma {:induction false} ObjectOfStyle(st: Style)
    requires Representable(st)
    ensures ToStyle(ObjectOf(st)) == st
  {
    ObjectFields(st);
  }
}
