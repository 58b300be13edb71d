/**
 * The tag scan of `htmlToRichText` (RichTextLib.js:77-130), as functions:
 * the tag regex and the attribute extractors as scanners, the style
 * fragment of an opening tag, and the effect of each tag on the stack of
 * open tags and on the per-character style objects.
 */
module TagScan {
  import opened Wrappers
  import opened JsText
  import opened Color
  import opened StyleObject
  import opened PlainText

  /* ---------- the tag regex ---------- */

  /** One match of the tag regex: where it starts, its length, `match[1]` and `match[2] || ""`. */
  datatype TagMatch = TagMatch(index: nat, len: nat, name: string, attrs: string)

  /**
   * `<(\/?[a-z0-9]+)(?:\s+([^>]*?))?>` under the `i` flag, tried at the
   * start of `s`: the match's length, its name and its attributes. After
   * the name comes either `>` at once, or whitespace and then everything
   * up to the first `>`.
   */
  function TagAt(s: string): (r: Option<(nat, string, string)>)
    ensures r.Some? ==> 0 < r.value.0 <= |s|
  {
    if |s| < 2 || s[0] != '<' then None
    else
      var slash := if s[1] == '/' then 1 else 0;
      var n := Span(s[1 + slash..], IsAsciiAlnum);
      var e := 1 + slash + n;
      if n == 0 || e >= |s| then None
      else if s[e] == '>' then Some((e + 1, s[1..e], ""))
      else if IsSpace(s[e]) then
        var w := e + Span(s[e..], IsSpace);
        match IndexOf(s[w..], '>')
        case Some(k) => Some((w + k + 1, s[1..e], s[w..w + k]))
        case None => None
      else None
  }

  /** `tagRegex.exec(html)` with `lastIndex == pos`: the leftmost match at or after `pos`. */
  function FindTag(html: string, pos: nat): (r: Option<TagMatch>)
    requires pos <= |html|
    ensures r.Some? ==> pos <= r.value.index && 0 < r.value.len && r.value.index + r.value.len <= |html|
    decreases |html| - pos
  {
    match TagAt(html[pos..])
    case Some(t) => Some(TagMatch(pos, t.0, t.1, t.2))
    case None => if pos == |html| then None else FindTag(html, pos + 1)
  }

  /** What `FindTag` finds is a match of the tag regex at its index. */
  lemma {:induction false} FindTagMatches(html: string, pos: nat)
    requires pos <= |html| && FindTag(html, pos).Some?
    ensures var m := FindTag(html, pos).value; TagAt(html[m.index..]) == Some((m.len, m.name, m.attrs))
    decreases |html| - pos
  {
    if TagAt(html[pos..]).None? {
      assert FindTag(html, pos) == FindTag(html, pos + 1);
      FindTagMatches(html, pos + 1);
    }
  }

  /** There is no match between `pos` and the one `FindTag` finds: it is the leftmost. */
  lemma {:induction false} FindTagLeftmost(html: string, pos: nat)
    requires pos <= |html| && FindTag(html, pos).Some?
    ensures forall p | pos <= p < FindTag(html, pos).value.index :: TagAt(html[p..]).None?
    decreases |html| - pos
  {
    if TagAt(html[pos..]).None? {
      assert FindTag(html, pos) == FindTag(html, pos + 1);
      FindTagLeftmost(html, pos + 1);
    }
  }

  /** `FindTag` gives up only when no position from `pos` on starts a match. */
  lemma {:induction false} FindTagNone(html: string, pos: nat)
    requires pos <= |html| && FindTag(html, pos).None?
    ensures forall p | pos <= p <= |html| :: TagAt(html[p..]).None?
    decreases |html| - pos
  {
    if pos < |html| {
      assert FindTag(html, pos) == FindTag(html, pos + 1);
      FindTagNone(html, pos + 1);
    }
  }

  /* ---------- the attribute extractors ---------- */

  predicate IsQuote(c: char) { c == '"' || c == '\'' }

  predicate NotQuote(c: char) { !IsQuote(c) }

  /** `[^"';]`: what may stand between `text-decoration:` and the value. */
  predicate NotDeclEnd(c: char) { !IsQuote(c) && c != ';' }

  /** `[^"'\s>]`: an unquoted attribute value's characters. */
  predicate BareValueChar(c: char) { !IsQuote(c) && !IsSpace(c) && c != '>' }

  /** `style\s*=\s*["']([\s\S]*?)["']` at the start of `s`: the text up to the next quote of either kind. */
  function StyleAt(s: string): (r: Option<string>)
    ensures r.Some? ==> forall k | 0 <= k < |r.value| :: !IsQuote(r.value[k])
  {
    if !StartsWithCI(s, "style") then None
    else
      var i := 5 + Span(s[5..], IsSpace);
      if i < |s| && s[i] == '=' then
        var j := i + 1 + Span(s[i + 1..], IsSpace);
        if j < |s| && IsQuote(s[j]) then
          var k := Span(s[j + 1..], NotQuote);
          if j + 1 + k < |s| then Some(s[j + 1..j + 1 + k]) else None
        else None
      else None
  }

  /** `attrs.match(/style…/i)[1]`. */
  function StyleAttr(attrs: string): Option<string> {
    Search(attrs, StyleAt)
  }

  /** `rgb\s*\([^)]+\)` at the start of `s`: the length of the call. */
  function RgbCallLen(s: string): (r: Option<nat>)
    ensures r.Some? ==> 0 < r.value <= |s|
  {
    if !StartsWithCI(s, "rgb") then None
    else
      var i := 3 + Span(s[3..], IsSpace);
      if i < |s| && s[i] == '(' then
        var k := Span(s[i + 1..], c => c != ')');
        if 0 < k && i + 1 + k < |s| then Some(i + 2 + k) else None
      else None
  }

  /** `(rgb\s*\([^)]+\)|#[a-f0-9]+|[a-z]+)` at the start of `s`, the alternatives tried in order. */
  function ColorValueAt(s: string): (r: Option<string>)
    ensures r.Some? ==> r.value != "" && |r.value| <= |s| && r.value == s[..|r.value|]
  {
    match RgbCallLen(s)
    case Some(n) => Some(s[..n])
    case None =>
      var hex := if s != [] && s[0] == '#' then Span(s[1..], IsHexDigitCI) else 0;
      var letters := Span(s, IsAsciiLetter);
      if 0 < hex then Some(s[..1 + hex])
      else if 0 < letters then Some(s[..letters])
      else None
  }

  /** `color:\s*(…)` at the start of `s`. */
  function ColorDeclAt(s: string): Option<string> {
    if StartsWithCI(s, "color:") then ColorValueAt(s[6 + Span(s[6..], IsSpace)..]) else None
  }

  /** `s.match(/color:…/i)[1]`; it also finds the `color:` inside `background-color:`. */
  function ColorDecl(s: string): Option<string> {
    Search(s, ColorDeclAt)
  }

  predicate BoldAt(s: string) {
    StartsWithCI(s, "font-weight:") &&
    var t := s[12 + Span(s[12..], IsSpace)..];
    StartsWithCI(t, "bold") || StartsWith(t, "700") || StartsWith(t, "800") || StartsWith(t, "900")
  }

  /** `/font-weight:\s*(bold|700|800|900)/i.test(s)`. */
  predicate BoldDecl(s: string) { Occurs(s, BoldAt) }

  predicate ItalicAt(s: string) {
    StartsWithCI(s, "font-style:") && StartsWithCI(s[11 + Span(s[11..], IsSpace)..], "italic")
  }

  /** `/font-style:\s*italic/i.test(s)`. */
  predicate ItalicDecl(s: string) { Occurs(s, ItalicAt) }

  /** `lit` (in lower case) occurs in `t`, ignoring case. */
  predicate ContainsCI(t: string, lit: string) {
    Occurs(t, x => StartsWithCI(x, lit))
  }

  /**
   * `text-decoration:\s*[^"';]*<word>` at the start of `s`: `word` occurs
   * before the next quote or semicolon.
   */
  predicate DecorationAt(s: string, word: string) {
    StartsWithCI(s, "text-decoration:") &&
    var t := s[16..];
    ContainsCI(t[..Span(t, NotDeclEnd)], word)
  }

  /** `/text-decoration:\s*[^"';]*line-through/i.test(s)`. */
  predicate LineThroughDecl(s: string) { Occurs(s, x => DecorationAt(x, "line-through")) }

  /** `/text-decoration:\s*[^"';]*underline/i.test(s)`. */
  predicate UnderlineDecl(s: string) { Occurs(s, x => DecorationAt(x, "underline")) }

  /** `color\s*=\s*` at the start of `s`: where the value starts. */
  function ColorAssignAt(s: string): (r: Option<nat>)
    ensures r.Some? ==> r.value <= |s|
  {
    if !StartsWithCI(s, "color") then None
    else
      var i := 5 + Span(s[5..], IsSpace);
      if i < |s| && s[i] == '=' then Some(i + 1 + Span(s[i + 1..], IsSpace)) else None
  }

  /** `color\s*=\s*["']([^"']+)["']` at the start of `s`. */
  function QuotedColorAt(s: string): Option<string> {
    match ColorAssignAt(s)
    case None => None
    case Some(j) =>
      if j < |s| && IsQuote(s[j]) then
        var k := Span(s[j + 1..], NotQuote);
        if 0 < k && j + 1 + k < |s| then Some(s[j + 1..j + 1 + k]) else None
      else None
  }

  /** `attrs.match(/color\s*=\s*["']([^"']+)["']/i)[1]`. */
  function ColorAttr(attrs: string): Option<string> {
    Search(attrs, QuotedColorAt)
  }

  /** `color\s*=\s*["']?([^"'\s>]+)["']?` at the start of `s`. */
  function BareColorAt(s: string): Option<string> {
    match ColorAssignAt(s)
    case None => None
    case Some(j) =>
      var q := if j < |s| && IsQuote(s[j]) then j + 1 else j;
      var k := Span(s[q..], BareValueChar);
      if 0 < k then Some(s[q..q + k]) else None
  }

  /** The `<font>` tag's `attrs.match(/color\s*=\s*["']?([^"'\s>]+)["']?/i)[1]`. */
  function FontColorAttr(attrs: string): Option<string> {
    Search(attrs, BareColorAt)
  }

  /* ---------- the style fragment of an opening tag ---------- */

  /** What the declarations `s` of a `style` attribute add to `o` (RichTextLib.js:106-112). */
  function Declarations(o: StyleObj, s: string): (r: StyleObj)
    ensures Valid(o) ==> Valid(r)
  {
    var a := match ColorDecl(s) case Some(c) => SetColor(o, ParseToHex(Some(c))) case None => o;
    var b := if BoldDecl(s) then SetFlag(a, BoldKey) else a;
    var c := if ItalicDecl(s) then SetFlag(b, ItalicKey) else b;
    var d := if LineThroughDecl(s) then SetFlag(c, StrikethroughKey) else c;
    if UnderlineDecl(s) then SetFlag(d, UnderlineKey) else d
  }

  /** The style object an opening tag pushes (RichTextLib.js:103-126). */
  function Fragment(name: string, attrs: string): (o: StyleObj)
    ensures Valid(o)
  {
    var o1 := match StyleAttr(attrs) case Some(s) => Declarations(Empty, s) case None => Empty;
    var o2 := match ColorAttr(attrs)
      case Some(c) => if !HasTruthyColor(o1) then SetColor(o1, ParseToHex(Some(c))) else o1
      case None => o1;
    var o3 := if name == "b" || name == "strong" then SetFlag(o2, BoldKey) else o2;
    var o4 := if name == "i" || name == "em" then SetFlag(o3, ItalicKey) else o3;
    var o5 := if name == "u" then SetFlag(o4, UnderlineKey) else o4;
    var o6 := if name == "s" || name == "strike" || name == "del" then SetFlag(o5, StrikethroughKey) else o5;
    if name == "font" then
      match FontColorAttr(attrs) case Some(c) => SetColor(o6, ParseToHex(Some(c))) case None => o6
    else o6
  }

  /* ---------- the stack and the per-character styles ---------- */

  /** A stack entry `{ name, start, style }`. */
  datatype OpenTag = OpenTag(name: string, start: nat, style: StyleObj)

  /** The state of the scan: the stack of open tags and `charStyles`. */
  datatype ScanState = ScanState(stack: seq<OpenTag>, styles: seq<StyleObj>)

  /** The index of the topmost entry named `name`, which the backward search finds. */
  function TopmostIndex(stack: seq<OpenTag>, name: string): (r: Option<nat>)
    ensures r.Some? ==>
      r.value < |stack| && stack[r.value].name == name
      && forall k | r.value < k < |stack| :: stack[k].name != name
    ensures r.None? ==> forall k | 0 <= k < |stack| :: stack[k].name != name
  {
    if stack == [] then None
    else if stack[|stack| - 1].name == name then Some(|stack| - 1)
    else TopmostIndex(stack[..|stack| - 1], name)
  }

  /** `Object.assign(charStyles[j], frag)` for `from <= j < to`, where `j` is an index of `styles`. */
  function Merge(styles: seq<StyleObj>, from: nat, to: nat, frag: StyleObj): (r: seq<StyleObj>)
    ensures |r| == |styles|
  {
    seq(|styles|, j requires 0 <= j < |styles| => if from <= j < to then Assign(styles[j], frag) else styles[j])
  }

  /**
   * The effect of one matched tag, named `tagName` (in lower case), found
   * where the plain text has `plainIndex` characters (RichTextLib.js:87-129).
   */
  function Step(st: ScanState, tagName: string, attrs: string, plainIndex: nat): (r: ScanState)
    ensures |r.styles| == |st.styles|
  {
    if StartsWith(tagName, "/") then
      match TopmostIndex(st.stack, tagName[1..])
      case Some(i) =>
        var open := st.stack[i];
        ScanState(st.stack[..i] + st.stack[i + 1..], Merge(st.styles, open.start, plainIndex, open.style))
      case None => st
    else if tagName == "br" then st
    else ScanState(st.stack + [OpenTag(tagName, plainIndex, Fragment(tagName, attrs))], st.styles)
  }

  /** The step of the match `m` of `html`, at the plain-text offset of where it starts. */
  function MatchStep(html: string, st: ScanState, m: TagMatch): (r: ScanState)
    requires m.index <= |html|
    ensures |r.styles| == |st.styles|
  {
    Step(st, Lower(m.name), m.attrs, PlainOffset(html, m.index))
  }

  /** The scan from `pos` on: each match, left to right, is a `Step`. */
  function ScanFrom(html: string, pos: nat, st: ScanState): (r: ScanState)
    requires pos <= |html|
    ensures |r.styles| == |st.styles|
    decreases |html| - pos, 1
  {
    match FindTag(html, pos)
    case None => st
    case Some(m) => ScanAt(html, m, st)
  }

  /** The scan from the match `m` on: its `Step`, then the scan after it. */
  function ScanAt(html: string, m: TagMatch, st: ScanState): (r: ScanState)
    requires 0 < m.len && m.index + m.len <= |html|
    ensures |r.styles| == |st.styles|
    decreases |html| - m.index, 0
  {
    ScanFrom(html, m.index + m.len, MatchStep(html, st, m))
  }

  /** A scan with no match left ends where it is. */
  lemma {:induction false} ScanFromNone(html: string, pos: nat, st: ScanState)
    requires pos <= |html| && FindTag(html, pos).None?
    ensures ScanFrom(html, pos, st) == st
  {
  }

  /**
   * The scan from `pos`, begun in the state `st`, ends in `result`. Stating
   * a step of the scan through this predicate keeps the verifier from
   * unfolding the scan past the match it is about.
   */
  ghost predicate ScansTo(html: string, pos: nat, st: ScanState, result: ScanState)
    requires pos <= |html|
  {
    ScanFrom(html, pos, st) == result
  }

  /**
   * A scan from `pos` whose first match is `tag` ends where the scan from
   * just after `tag` ends, begun in the state the match's `Step` makes.
   */
  lemma {:induction false} ScanAdvance(html: string, pos: nat, tag: TagMatch, before: ScanState, result: ScanState)
    requires pos <= |html| && FindTag(html, pos) == Some(tag)
    requires ScansTo(html, pos, before, result)
    ensures ScansTo(html, tag.index + tag.len, MatchStep(html, before, tag), result)
  {
    ScanAtUnfold(html, tag, before);
  }

  /** The scan from the match `tag` goes on after it from the state its `Step` makes. */
  lemma {:induction false} ScanAtUnfold(html: string, tag: TagMatch, st: ScanState)
    requires 0 < tag.len && tag.index + tag.len <= |html|
    ensures ScansTo(html, tag.index + tag.len, MatchStep(html, st, tag), ScanAt(html, tag, st))
  {
  }

  /** `charStyles` before the scan: one `{}` per character of the plain text. */
  function InitialStyles(n: nat): (r: seq<StyleObj>)
    ensures |r| == n && forall j | 0 <= j < n :: r[j] == Empty
  {
    seq(n, _ => Empty)
  }

  /** `charStyles` after the scan of `html`. */
  function CharStyles(html: string): (r: seq<StyleObj>)
    ensures |r| == |ToPlainText(html)|
  {
    ScanFrom(html, 0, ScanState([], InitialStyles(|ToPlainText(html)|))).styles
  }
}
