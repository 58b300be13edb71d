/**
 * `htmlToRichText` (RichTextLib.js:56-161): the plain text, the tag scan
 * over a `charStyles` array updated in place, and the loop that coalesces
 * equal neighbouring style objects into runs.
 */
module Decoder {
  import opened Wrappers
  import opened JsText
  import opened RichText
  import opened StyleObject
  import opened PlainText
  import opened TagScan

  /* ---------- run coalescing ---------- */

  /**
   * `[s, e)` is a maximal block of equal style objects of `g`: every
   * character in it has the object at `s`, and the characters just outside
   * it (if any) have a different one.
   */
  predicate MaximalBlock(g: seq<StyleObj>, s: int, e: int) {
    && 0 <= s < e <= |g|
    && (forall j | s <= j < e :: g[j] == g[s])
    && (s == 0 || g[s - 1] != g[s])
    && (e == |g| || g[e] != g[s])
  }

  /** A run the coalescing loop may emit: a maximal block, carrying its object's style, which sets something. */
  predicate GoodRun(g: seq<StyleObj>, r: Run) {
    MaximalBlock(g, r.start, r.end) && r.style == ToStyle(g[r.start]) && HasStyle(r.style)
  }

  /** Every run is good and ends by `k`. */
  predicate RunsGood(g: seq<StyleObj>, runs: seq<Run>, k: nat) {
    forall i | 0 <= i < |runs| :: runs[i].end <= k && GoodRun(g, runs[i])
  }

  /** Each run ends before the next one starts. */
  predicate RunsOrdered(runs: seq<Run>) {
    forall i | 0 <= i < |runs| - 1 :: runs[i].end <= runs[i + 1].start
  }

  /** Every styled character before `k` lies in some run. */
  predicate RunsCover(g: seq<StyleObj>, runs: seq<Run>, k: nat) {
    forall j | 0 <= j < k && j < |g| && HasStyle(ToStyle(g[j])) ::
      exists i :: 0 <= i < |runs| && runs[i].start <= j < runs[i].end
  }

  /** Runs ordered by start, not overlapping, each good, and covering every styled character before `k`. */
  predicate CoalescedUpTo(g: seq<StyleObj>, runs: seq<Run>, k: nat) {
    RunsGood(g, runs, k) && RunsOrdered(runs) && RunsCover(g, runs, k)
  }

  /**
   * `runs` are the runs of `g`: the maximal blocks of equal style objects
   * whose style sets something, in order, each with that style.
   */
  predicate Coalesced(g: seq<StyleObj>, runs: seq<Run>) {
    CoalescedUpTo(g, runs, |g|)
  }

  /**
   * `[s, e)` is a block of equal style objects of `g` that begins where
   * the object changes; the coalescing loop is inside it.
   */
  predicate InBlock(g: seq<StyleObj>, s: int, e: int) {
    && 0 <= s < e <= |g|
    && (forall j | s <= j < e :: g[j] == g[s])
    && (s == 0 || g[s - 1] != g[s])
  }

  /** A block the next object continues grows by one. */
  lemma {:induction false} BlockGrows(g: seq<StyleObj>, s: nat, e: nat)
    requires InBlock(g, s, e) && e < |g| && g[e] == g[s]
    ensures InBlock(g, s, e + 1)
  {
  }

  /** A block the next object does not continue, or that reaches the end, is maximal. */
  lemma {:induction false} BlockEnds(g: seq<StyleObj>, s: nat, e: nat)
    requires InBlock(g, s, e) && (e == |g| || g[e] != g[s])
    ensures MaximalBlock(g, s, e)
  {
  }

  /** Closing the block `[runStart, i)` when its style sets something: its run is added. */
  lemma {:induction false} FlushStyled(g: seq<StyleObj>, runs: seq<Run>, runStart: nat, i: nat)
    requires MaximalBlock(g, runStart, i)
    requires HasStyle(ToStyle(g[runStart]))
    requires CoalescedUpTo(g, runs, runStart)
    ensures CoalescedUpTo(g, runs + [Run(runStart, i, ToStyle(g[runStart]))], i)
  {
    var r := Run(runStart, i, ToStyle(g[runStart]));
    FlushedRunsGood(g, runs, r);
    FlushedRunsOrdered(runs, r);
    FlushedRunsCover(g, runs, r);
  }

  lemma {:induction false} FlushedRunsGood(g: seq<StyleObj>, runs: seq<Run>, r: Run)
    requires r.start >= 0 && GoodRun(g, r) && RunsGood(g, runs, r.start)
    ensures RunsGood(g, runs + [r], r.end)
  {
    var runs' := runs + [r];
    forall k | 0 <= k < |runs'|
      ensures runs'[k].end <= r.end && GoodRun(g, runs'[k])
    {
      if k < |runs| {
        assert runs'[k] == runs[k];
      }
    }
  }

  lemma {:induction false} FlushedRunsOrdered(runs: seq<Run>, r: Run)
    requires r.start >= 0 && RunsOrdered(runs) && forall k | 0 <= k < |runs| :: runs[k].end <= r.start
    ensures RunsOrdered(runs + [r])
  {
    var runs' := runs + [r];
    forall k | 0 <= k < |runs'| - 1
      ensures runs'[k].end <= runs'[k + 1].start
    {
      assert runs'[k] == runs[k];
      if k + 1 < |runs| {
        assert runs'[k + 1] == runs[k + 1];
      }
    }
  }

  lemma {:induction false} FlushedRunsCover(g: seq<StyleObj>, runs: seq<Run>, r: Run)
    requires 0 <= r.start <= r.end && RunsCover(g, runs, r.start)
    ensures RunsCover(g, runs + [r], r.end)
  {
    var runs' := runs + [r];
    forall j | 0 <= j < r.end && j < |g| && HasStyle(ToStyle(g[j]))
      ensures exists k :: 0 <= k < |runs'| && runs'[k].start <= j < runs'[k].end
    {
      if j < r.start {
        var k :| 0 <= k < |runs| && runs[k].start <= j < runs[k].end;
        assert runs'[k] == runs[k];
      } else {
        assert runs'[|runs|] == r;
      }
    }
  }

  /** Closing the block `[runStart, i)` when its style sets nothing: no run is added. */
  lemma {:induction false} FlushPlain(g: seq<StyleObj>, runs: seq<Run>, runStart: nat, i: nat)
    requires MaximalBlock(g, runStart, i)
    requires !HasStyle(ToStyle(g[runStart]))
    requires CoalescedUpTo(g, runs, runStart)
    ensures CoalescedUpTo(g, runs, i)
  {
    forall j | runStart <= j < i
      ensures !HasStyle(ToStyle(g[j]))
    {
      assert g[j] == g[runStart];
    }
  }

  /**
   * The body of RichTextLib.js:141-155 at the end of the block `[runStart, i)`
   * whose object is `obj`: a run with its style is added when that style
   * sets something.
   */
  method Flush(ghost g: seq<StyleObj>, runs: seq<Run>, runStart: nat, i: nat, obj: StyleObj) returns (runs': seq<Run>)
    requires MaximalBlock(g, runStart, i) && obj == g[runStart]
    requires CoalescedUpTo(g, runs, runStart)
    ensures CoalescedUpTo(g, runs', i)
    ensures HasStyle(ToStyle(obj)) ==> runs' == runs + [Run(runStart, i, ToStyle(obj))]
    ensures !HasStyle(ToStyle(obj)) ==> runs' == runs
  {
    var style := ToStyle(obj);
    if HasStyle(style) {
      FlushStyled(g, runs, runStart, i);
      runs' := runs + [Run(runStart, i, style)];
    } else {
      FlushPlain(g, runs, runStart, i);
      runs' := runs;
    }
  }

  /** The loop of RichTextLib.js:133-158 over `charStyles`. */
  method CoalesceRuns(cs: array<StyleObj>) returns (runs: seq<Run>)
    ensures Coalesced(cs[..], runs)
  {
    runs := [];
    var n := cs.Length;
    if n == 0 {
      return;
    }
    ghost var g := cs[..];
    var runStart := 0;
    var last: Option<StyleObj> := Some(cs[0]);
    var i := 1;
    while i <= n
      invariant 0 <= runStart < i <= n + 1
      invariant runStart < n ==> InBlock(g, runStart, i) && last == Some(g[runStart])
      invariant runStart == n ==> i == n + 1
      invariant CoalescedUpTo(g, runs, runStart)
    {
      var current: Option<StyleObj> := if i < n then Some(cs[i]) else None;
      if current != last {
        BlockEnds(g, runStart, i);
        runs := Flush(g, runs, runStart, i, last.value);
        runStart := i;
        last := current;
      } else {
        BlockGrows(g, runStart, i);
      }
      i := i + 1;
    }
  }

  /* ---------- the decoder ---------- */

  /** The inner loop of RichTextLib.js:92-96: the open tag's style is assigned onto `charStyles[from..to)`. */
  method MergeInto(charStyles: array<StyleObj>, from: nat, to: nat, frag: StyleObj)
    modifies charStyles
    ensures charStyles[..] == Merge(old(charStyles[..]), from, to, frag)
  {
    ghost var before := charStyles[..];
    var j := from;
    while j < to
      invariant from <= j
      invariant from <= to ==> j <= to
      invariant from > to ==> j == from
      invariant charStyles[..] == Merge(before, from, j, frag)
    {
      MergeStep(before, from, j, frag);
      if j < charStyles.Length {
        charStyles[j] := Assign(charStyles[j], frag);
      }
      j := j + 1;
    }
    assert Merge(before, from, j, frag) == Merge(before, from, to, frag);
  }

  /** Extending the merged range by one index changes at most that index. */
  lemma {:induction false} MergeStep(styles: seq<StyleObj>, from: nat, j: nat, frag: StyleObj)
    requires from <= j
    ensures var cur := Merge(styles, from, j, frag);
      Merge(styles, from, j + 1, frag) == if j < |styles| then cur[j := Assign(cur[j], frag)] else cur
  {
  }

  /**
   * A closing tag (RichTextLib.js:87-100): the topmost open tag of that name,
   * if any, is removed from the stack and its style merged onto the
   * characters it spanned; without one nothing changes.
   */
  method CloseTag(charStyles: array<StyleObj>, stack: seq<OpenTag>, name: string, plainIndex: nat)
      returns (stack': seq<OpenTag>)
    modifies charStyles
    ensures match TopmostIndex(stack, name)
      case None => stack' == stack && charStyles[..] == old(charStyles[..])
      case Some(i) =>
        && stack' == stack[..i] + stack[i + 1..]
        && charStyles[..] == Merge(old(charStyles[..]), stack[i].start, plainIndex, stack[i].style)
  {
    stack' := stack;
    var i := |stack| - 1;
    while i >= 0
      invariant -1 <= i < |stack|
      invariant forall k | i < k < |stack| :: stack[k].name != name
    {
      if stack[i].name == name {
        var openTag := stack[i];
        stack' := stack[..i] + stack[i + 1..];
        MergeInto(charStyles, openTag.start, plainIndex, openTag.style);
        TopmostIndexIs(stack, name, i);
        return;
      }
      i := i - 1;
    }
  }

  /** The topmost index of `name` is the last position holding it. */
  lemma {:induction false} TopmostIndexIs(stack: seq<OpenTag>, name: string, i: nat)
    requires i < |stack| && stack[i].name == name
    requires forall k | i < k < |stack| :: stack[k].name != name
    ensures TopmostIndex(stack, name) == Some(i)
  {
  }

  /** One matched tag (RichTextLib.js:83-128): a closing tag closes, `br` is skipped, any other tag is pushed. */
  method ApplyTag(charStyles: array<StyleObj>, stack: seq<OpenTag>, tagName: string, attrs: string, plainIndex: nat)
      returns (stack': seq<OpenTag>)
    modifies charStyles
    ensures ScanState(stack', charStyles[..]) == Step(ScanState(stack, old(charStyles[..])), tagName, attrs, plainIndex)
  {
    stack' := stack;
    if StartsWith(tagName, "/") {
      stack' := CloseTag(charStyles, stack, tagName[1..], plainIndex);
    } else if tagName != "br" {
      var style := Fragment(tagName, attrs);
      stack' := stack + [OpenTag(tagName, plainIndex, style)];
    }
  }

  /**
   * One pass of the tag loop (RichTextLib.js:82-129): the match `tag`, the
   * first from `pos`, is applied with its name in lower case and the length
   * of the plain text before it; the search then goes on after it, and the
   * scan from there ends in the same `result`.
   */
  method ApplyMatch(html: string, pos: nat, tag: TagMatch, charStyles: array<StyleObj>, stack: seq<OpenTag>,
                    ghost result: ScanState)
      returns (stack': seq<OpenTag>, pos': nat, next: Option<TagMatch>)
    requires pos <= |html| && FindTag(html, pos) == Some(tag)
    requires ScansTo(html, pos, ScanState(stack, charStyles[..]), result)
    modifies charStyles
    ensures pos' == tag.index + tag.len && pos < pos' <= |html| && next == FindTag(html, pos')
    ensures ScansTo(html, tag.index + tag.len, ScanState(stack', charStyles[..]), result)
  {
    ghost var before := ScanState(stack, charStyles[..]);
    stack' := ApplyTag(charStyles, stack, Lower(tag.name), tag.attrs, PlainOffset(html, tag.index));
    ScanAdvance(html, pos, tag, before, result);
    pos' := tag.index + tag.len;
    next := FindTag(html, pos');
  }

  /**
   * The tag loop of `htmlToRichText` (RichTextLib.js:78-130): each match of
   * the tag regex, left to right, is applied to `charStyles` and the stack
   * of open tags, which starts empty.
   */
  method ApplyTags(html: string, charStyles: array<StyleObj>)
    modifies charStyles
    ensures charStyles[..] == ScanFrom(html, 0, ScanState([], old(charStyles[..]))).styles
  {
    var stack: seq<OpenTag> := [];
    var pos: nat := 0;
    var m := FindTag(html, 0);
    ghost var result := ScanFrom(html, 0, ScanState([], charStyles[..]));
    while m.Some?
      invariant pos <= |html|
      invariant m == FindTag(html, pos)
      invariant ScansTo(html, pos, ScanState(stack, charStyles[..]), result)
      decreases |html| - pos
    {
      stack, pos, m := ApplyMatch(html, pos, m.value, charStyles, stack, result);
    }
    ScanFromNone(html, pos, ScanState(stack, charStyles[..]));
  }

  /** `htmlToRichText`. */
  method HtmlToRichText(html: string) returns (v: RichTextValue)
    ensures v.text == ToPlainText(html)
    ensures Coalesced(CharStyles(html), v.runs)
    ensures html == "" ==> v == RichTextValue("", [])
  {
    if html == "" {
      return RichTextValue("", []);
    }
    var text := ToPlainText(html);
    var charStyles := new StyleObj[|text|](_ => Empty);
    assert charStyles[..] == InitialStyles(|text|);
    ApplyTags(html, charStyles);
    var runs := CoalesceRuns(charStyles);
    v := RichTextValue(text, runs);
  }
}

/** What the runs of the decoder mean: they are determined by `charStyles`, and they break exactly where it changes. */
module DecoderFacts {
  import opened RichText
  import opened StyleObject
  import opened Decoder

  /** Every character of a run carries that run's style, and runs lie within the text. */
  lemma {:induction false} RunCharsHaveItsStyle(g: seq<StyleObj>, runs: seq<Run>, i: nat, j: int)
    requires Coalesced(g, runs) && i < |runs| && runs[i].start <= j < runs[i].end
    ensures 0 <= runs[i].start && runs[i].end <= |g|
    ensures ToStyle(g[j]) == runs[i].style && HasStyle(runs[i].style)
  {
    assert GoodRun(g, runs[i]);
  }

  /** Two maximal blocks that share a character are the same block. */
  lemma {:induction false} MaximalBlocksMeet(g: seq<StyleObj>, s1: int, e1: int, s2: int, e2: int, j: int)
    requires MaximalBlock(g, s1, e1) && MaximalBlock(g, s2, e2)
    requires s1 <= j < e1 && s2 <= j < e2
    ensures s1 == s2 && e1 == e2
  {
    assert g[j] == g[s1] && g[j] == g[s2];
  }

  /** Runs in order start at strictly increasing positions. */
  lemma {:induction false} OrderedStarts(g: seq<StyleObj>, runs: seq<Run>, a: nat, b: nat)
    requires Coalesced(g, runs) && a < b < |runs|
    ensures runs[a].start < runs[b].start && runs[a].end <= runs[b].start
    decreases b - a
  {
    assert GoodRun(g, runs[a]) && GoodRun(g, runs[b - 1]);
    if a + 1 < b {
      OrderedStarts(g, runs, a, b - 1);
      assert GoodRun(g, runs[b - 1]);
    }
  }

  predicate StrictlyOrdered(runs: seq<Run>) {
    forall a, b | 0 <= a < b < |runs| :: runs[a].start < runs[b].start
  }

  lemma {:induction false} CoalescedStrictlyOrdered(g: seq<StyleObj>, runs: seq<Run>)
    requires Coalesced(g, runs)
    ensures StrictlyOrdered(runs)
  {
    forall a, b | 0 <= a < b < |runs|
      ensures runs[a].start < runs[b].start
    {
      OrderedStarts(g, runs, a, b);
    }
  }

  /** Each run of one coalescing is a run of any other: the maximal block it is in is its own. */
  lemma {:induction false} CoalescedSameSet(g: seq<StyleObj>, r1: seq<Run>, r2: seq<Run>)
    requires Coalesced(g, r1) && Coalesced(g, r2)
    ensures forall r | r in r1 :: r in r2
  {
    forall r | r in r1
      ensures r in r2
    {
      var k :| 0 <= k < |r1| && r1[k] == r;
      assert GoodRun(g, r);
      var i :| 0 <= i < |r2| && r2[i].start <= r.start < r2[i].end;
      assert GoodRun(g, r2[i]);
      MaximalBlocksMeet(g, r.start, r.end, r2[i].start, r2[i].end, r.start);
      assert r2[i] == r;
    }
  }

  /** Of two ordered lists with the same runs, the first runs agree. */
  lemma {:induction false} SameFirstRun(r1: seq<Run>, r2: seq<Run>)
    requires StrictlyOrdered(r1) && StrictlyOrdered(r2) && r1 != [] && r2 != []
    requires r1[0] in r2 && r2[0] in r1
    ensures r1[0] == r2[0]
  {
    var j :| 0 <= j < |r2| && r2[j] == r1[0];
    var i :| 0 <= i < |r1| && r1[i] == r2[0];
    assert r2[0].start <= r2[j].start;
    assert r1[0].start <= r1[i].start;
  }

  /** After a common first run, the rest of one ordered list lies in the rest of the other. */
  lemma {:induction false} RestInRest(r1: seq<Run>, r2: seq<Run>)
    requires StrictlyOrdered(r1) && r1 != [] && r2 != [] && r1[0] == r2[0]
    requires forall r | r in r1 :: r in r2
    ensures forall r | r in r1[1..] :: r in r2[1..]
  {
    forall r | r in r1[1..]
      ensures r in r2[1..]
    {
      var a' :| 0 <= a' < |r1[1..]| && r1[1..][a'] == r;
      assert r1[a' + 1] == r && r in r1;
      var b :| 0 <= b < |r2| && r2[b] == r;
      assert r1[0].start < r1[a' + 1].start;
      assert r2[1..][b - 1] == r;
    }
  }

  /** Two lists ordered by strictly increasing start, holding the same runs, are equal. */
  lemma {:induction false} SameOrderedRuns(r1: seq<Run>, r2: seq<Run>)
    requires StrictlyOrdered(r1) && StrictlyOrdered(r2)
    requires forall r | r in r1 :: r in r2
    requires forall r | r in r2 :: r in r1
    ensures r1 == r2
    decreases |r1|
  {
    if r1 != [] {
      assert r1[0] in r1;
    }
    if r2 != [] {
      assert r2[0] in r2;
    }
    if r1 != [] && r2 != [] {
      SameFirstRun(r1, r2);
      RestInRest(r1, r2);
      RestInRest(r2, r1);
      SameOrderedRuns(r1[1..], r2[1..]);
      assert r1 == [r1[0]] + r1[1..] && r2 == [r2[0]] + r2[1..];
    }
  }

  /** The runs of `charStyles` are unique: `Coalesced` determines them, as the loop computes them. */
  lemma {:induction false} CoalescedUnique(g: seq<StyleObj>, r1: seq<Run>, r2: seq<Run>)
    requires Coalesced(g, r1) && Coalesced(g, r2)
    ensures r1 == r2
  {
    CoalescedStrictlyOrdered(g, r1);
    CoalescedStrictlyOrdered(g, r2);
    CoalescedSameSet(g, r1, r2);
    CoalescedSameSet(g, r2, r1);
    SameOrderedRuns(r1, r2);
  }

  /**
   * Two neighbouring characters, the first of them styled, lie in one run
   * exactly when their style objects are equal (serialise alike).
   */
  lemma {:induction false} BoundaryIffChange(g: seq<StyleObj>, runs: seq<Run>, j: nat)
    requires Coalesced(g, runs) && j + 1 < |g| && HasStyle(ToStyle(g[j]))
    ensures (exists i :: 0 <= i < |runs| && runs[i].start <= j && j + 1 < runs[i].end) <==> g[j] == g[j + 1]
  {
    var i :| 0 <= i < |runs| && runs[i].start <= j < runs[i].end;
    assert GoodRun(g, runs[i]);
    assert g[j] == g[runs[i].start];
    assert runs[i].end < |g| ==> g[runs[i].end] != g[runs[i].start];
    forall i' | 0 <= i' < |runs|
      ensures runs[i'].start <= j && j + 1 < runs[i'].end ==> g[j] == g[j + 1]
    {
      assert GoodRun(g, runs[i']);
      assert runs[i'].start <= j && j + 1 < runs[i'].end ==> g[j] == g[runs[i'].start] && g[j + 1] == g[runs[i'].start];
    }
  }
}
