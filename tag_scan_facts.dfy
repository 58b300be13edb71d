/**
 * What the tag scan of `htmlToRichText` promises: how a closing tag finds
 * its opening tag, that `br` and unclosed tags leave the styles alone, that
 * the outer of two nested tags wins a conflict, and which tag names and
 * attributes set which properties of a fragment.
 */
module TagScanFacts {
  import opened Wrappers
  import opened JsText
  import opened Color
  import opened StyleObject
  import opened StyleObjectFacts
  import opened PlainText
  import opened TagScan

  /* ---------- the stack ---------- */

  /**
   * A closing tag removes the topmost entry of its name, wherever it is in
   * the stack, and merges that entry's style onto the characters between
   * its start and the closing tag.
   */
  lemma {:induction false} CloseRemovesTopmost(st: ScanState, name: string, attrs: string, plainIndex: nat, i: nat)
    requires i < |st.stack| && st.stack[i].name == name
    requires forall k | i < k < |st.stack| :: st.stack[k].name != name
    ensures Step(st, "/" + name, attrs, plainIndex)
      == ScanState(st.stack[..i] + st.stack[i + 1..], Merge(st.styles, st.stack[i].start, plainIndex, st.stack[i].style))
  {
    assert ("/" + name)[1..] == name;
    assert TopmostIndex(st.stack, name) == Some(i);
  }

  /** A closing tag with no open entry of its name changes nothing. */
  lemma {:induction false} UnmatchedCloseIsNoOp(st: ScanState, name: string, attrs: string, plainIndex: nat)
    requires forall k | 0 <= k < |st.stack| :: st.stack[k].name != name
    ensures Step(st, "/" + name, attrs, plainIndex) == st
  {
    assert ("/" + name)[1..] == name;
    assert TopmostIndex(st.stack, name) == None;
  }

  /** A `br` is neither pushed nor merged. */
  lemma {:induction false} BrIsNeverPushed(st: ScanState, attrs: string, plainIndex: nat)
    ensures Step(st, "br", attrs, plainIndex) == st
  {
    assert "br"[..1][0] == 'b';
  }

  /** Any other opening tag is pushed with its start and fragment; the styles wait for its close. */
  lemma {:induction false} OpenPushes(st: ScanState, tagName: string, attrs: string, plainIndex: nat)
    requires !StartsWith(tagName, "/") && tagName != "br"
    ensures Step(st, tagName, attrs, plainIndex)
      == ScanState(st.stack + [OpenTag(tagName, plainIndex, Fragment(tagName, attrs))], st.styles)
  {
  }

  /** Only a closing tag changes the per-character styles. */
  lemma {:induction false} OpeningKeepsStyles(html: string, st: ScanState, m: TagMatch)
    requires m.index <= |html| && !StartsWith(Lower(m.name), "/")
    ensures MatchStep(html, st, m).styles == st.styles
  {
  }

  /** No closing tag is matched from `pos` on. */
  predicate NoCloseFrom(html: string, pos: nat)
    requires pos <= |html|
    decreases |html| - pos, 1
  {
    match FindTag(html, pos)
    case None => true
    case Some(m) => NoCloseAt(html, m)
  }

  /** The match `m` opens a tag, and no closing tag is matched after it. */
  predicate NoCloseAt(html: string, m: TagMatch)
    requires 0 < m.len && m.index + m.len <= |html|
    decreases |html| - m.index, 0
  {
    !StartsWith(Lower(m.name), "/") && NoCloseFrom(html, m.index + m.len)
  }

  /**
   * The first match from `pos` of a scan that meets no closing tag opens a
   * tag, and none closes after it, from `q` on.
   */
  lemma {:induction false} NoCloseNext(html: string, pos: nat) returns (q: nat)
    requires pos <= |html| && NoCloseFrom(html, pos) && FindTag(html, pos).Some?
    ensures q == FindTag(html, pos).value.index + FindTag(html, pos).value.len
    ensures !StartsWith(Lower(FindTag(html, pos).value.name), "/")
    ensures NoCloseFrom(html, q)
  {
    var m := FindTag(html, pos).value;
    assert NoCloseAt(html, m);
    q := m.index + m.len;
  }

  /**
   * When the first match from `pos`, `tag`, opens a tag, the scan goes on
   * just after it in a state with the same styles and ends in the same
   * `result`.
   */
  lemma {:induction false} OpeningStep(html: string, pos: nat, tag: TagMatch, st: ScanState, result: ScanState) returns (next: ScanState)
    requires pos <= |html| && FindTag(html, pos) == Some(tag)
    requires !StartsWith(Lower(tag.name), "/")
    requires ScansTo(html, pos, st, result)
    ensures next.styles == st.styles
    ensures ScansTo(html, tag.index + tag.len, next, result)
  {
    next := MatchStep(html, st, tag);
    ScanAdvance(html, pos, tag, st, result);
  }

  /**
   * Opening tags that are never closed contribute no style: a scan that
   * meets no closing tag leaves the per-character styles as they were,
   * whatever it pushes.
   */
  lemma {:induction false} UnclosedTagsContributeNothing(html: string, pos: nat, st: ScanState)
    requires pos <= |html| && NoCloseFrom(html, pos)
    ensures ScanFrom(html, pos, st).styles == st.styles
  {
    UnclosedScanKeepsStyles(html, pos, st, ScanFrom(html, pos, st));
  }

  /** The induction behind `UnclosedTagsContributeNothing`, on the scan's end state `result`. */
  lemma {:induction false} UnclosedScanKeepsStyles(html: string, pos: nat, st: ScanState, result: ScanState)
    requires pos <= |html| && NoCloseFrom(html, pos) && ScansTo(html, pos, st, result)
    ensures result.styles == st.styles
    decreases |html| - pos
  {
    if FindTag(html, pos).None? {
      ScanFromNone(html, pos, st);
    } else {
      var tag := FindTag(html, pos).value;
      var q := NoCloseNext(html, pos);
      var next := OpeningStep(html, pos, tag, st, result);
      UnclosedScanKeepsStyles(html, q, next, result);
    }
  }

  /** Every open tag's style and every character's object is a well-formed style object. */
  predicate StateValid(st: ScanState) {
    && (forall k | 0 <= k < |st.stack| :: Valid(st.stack[k].style))
    && (forall j | 0 <= j < |st.styles| :: Valid(st.styles[j]))
  }

  /** A step keeps every object well formed: pushed fragments are, and merging into one keeps it so. */
  lemma {:induction false} StepKeepsValid(st: ScanState, tagName: string, attrs: string, plainIndex: nat)
    requires StateValid(st)
    ensures StateValid(Step(st, tagName, attrs, plainIndex))
  {
    if StartsWith(tagName, "/") && TopmostIndex(st.stack, tagName[1..]).Some? {
      var i := TopmostIndex(st.stack, tagName[1..]).value;
      var rest := st.stack[..i] + st.stack[i + 1..];
      forall k | 0 <= k < |rest|
        ensures Valid(rest[k].style)
      {
        if k < i {
          assert rest[k] == st.stack[k];
        } else {
          assert rest[k] == st.stack[k + 1];
        }
      }
    }
  }

  /** The first match from `pos` leads to a well-formed state from which the scan ends in `result`. */
  lemma {:induction false} ValidStep(html: string, pos: nat, tag: TagMatch, st: ScanState, result: ScanState) returns (next: ScanState)
    requires pos <= |html| && FindTag(html, pos) == Some(tag)
    requires StateValid(st) && ScansTo(html, pos, st, result)
    ensures StateValid(next) && ScansTo(html, tag.index + tag.len, next, result)
  {
    next := MatchStep(html, st, tag);
    ScanAdvance(html, pos, tag, st, result);
    StepKeepsValid(st, Lower(tag.name), tag.attrs, PlainOffset(html, tag.index));
  }

  /** With no tag left, the scan ends in the well-formed state it is in. */
  lemma {:induction false} LastStepValid(html: string, pos: nat, st: ScanState, result: ScanState)
    requires pos <= |html| && FindTag(html, pos).None? && StateValid(st) && ScansTo(html, pos, st, result)
    ensures StateValid(result)
  {
    ScanFromNone(html, pos, st);
  }

  /** The induction behind `CharStylesValid`, on the scan's end state `result`. */
  lemma {:induction false} ScanKeepsValid(html: string, pos: nat, st: ScanState, result: ScanState)
    requires pos <= |html| && StateValid(st) && ScansTo(html, pos, st, result)
    ensures StateValid(result)
    decreases |html| - pos
  {
    if FindTag(html, pos).None? {
      LastStepValid(html, pos, st, result);
    } else {
      var tag := FindTag(html, pos).value;
      var next := ValidStep(html, pos, tag, st, result);
      ScanKeepsValid(html, tag.index + tag.len, next, result);
    }
  }

  /**
   * Every object of `charStyles` is well formed: no key twice, and a key
   * exactly for each property set, so that comparing objects compares
   * what `JSON.stringify` prints.
   */
  lemma {:induction false} CharStylesValid(html: string)
    ensures forall j | 0 <= j < |CharStyles(html)| :: Valid(CharStyles(html)[j])
  {
    var st := ScanState([], InitialStyles(|ToPlainText(html)|));
    ScanKeepsValid(html, 0, st, ScanFrom(html, 0, st));
  }

  /* ---------- merging ---------- */

  /**
   * Closing a tag touches exactly the characters between the tag's start
   * and the plain index of its close: on each of them every property the
   * tag's style sets overwrites the character's (a colour `null`
   * included) and the others stay; every other character is left as it was.
   */
  lemma {:induction false} MergeOnlyInRange(styles: seq<StyleObj>, from: nat, to: nat, frag: StyleObj, j: nat)
    requires j < |styles| && Valid(frag)
    ensures var m := Merge(styles, from, to, frag)[j];
      && (from <= j < to ==>
            && m.color == (if frag.color.Some? then frag.color else styles[j].color)
            && m.bold == (styles[j].bold || frag.bold)
            && m.italic == (styles[j].italic || frag.italic)
            && m.strikethrough == (styles[j].strikethrough || frag.strikethrough)
            && m.underline == (styles[j].underline || frag.underline))
      && (!(from <= j < to) ==> m == styles[j])
  {
    if from <= j < to {
      AssignValues(styles[j], frag);
    }
  }

  /**
   * Nested tags that both set the colour: the inner one closes first and
   * is merged first, the outer one closes later and wins on every
   * character both cover.
   */
  lemma {:induction false} OuterTagWins(styles: seq<StyleObj>, inner: OpenTag, innerEnd: nat, outer: OpenTag, outerEnd: nat, j: nat)
    requires Valid(inner.style) && Valid(outer.style) && outer.style.color.Some?
    requires j < |styles| && inner.start <= j < innerEnd && outer.start <= j < outerEnd
    ensures Merge(Merge(styles, inner.start, innerEnd, inner.style), outer.start, outerEnd, outer.style)[j].color
      == outer.style.color
  {
    var once := Merge(styles, inner.start, innerEnd, inner.style);
    assert once[j] == Assign(styles[j], inner.style);
    LaterAssignWins(styles[j], inner.style, outer.style);
  }

  /* ---------- the fragment of an opening tag ---------- */

  lemma {:induction false} SetFlagValues(o: StyleObj, k: Key)
    requires k != ColorKey
    ensures var r := SetFlag(o, k);
      && r.color == o.color
      && r.bold == (o.bold || k == BoldKey)
      && r.italic == (o.italic || k == ItalicKey)
      && r.strikethrough == (o.strikethrough || k == StrikethroughKey)
      && r.underline == (o.underline || k == UnderlineKey)
  {
  }

  /** The tag name's own flags: they are set whatever the attributes say. */
  lemma {:induction false} TagNameFlags(name: string, attrs: string)
    ensures var o := Fragment(name, attrs);
      && (name == "b" || name == "strong" ==> o.bold)
      && (name == "i" || name == "em" ==> o.italic)
      && (name == "u" ==> o.underline)
      && (name == "s" || name == "strike" || name == "del" ==> o.strikethrough)
  {
  }

  /** The fragment's colour before the `<font>` rule: from `style`, else from a `color` attribute. */
  function ColorBeforeFont(attrs: string): (c: Option<Option<string>>)
  {
    var fromStyle := match StyleAttr(attrs) case Some(s) => Declarations(Empty, s).color case None => None;
    var truthy := fromStyle.Some? && fromStyle.value.Some? && fromStyle.value.value != "";
    match ColorAttr(attrs)
    case Some(c) => if !truthy then Some(ParseToHex(Some(c))) else fromStyle
    case None => fromStyle
  }

  lemma {:induction false} DeclarationsColor(o: StyleObj, s: string)
    ensures Declarations(o, s).color
      == match ColorDecl(s) case Some(c) => Some(ParseToHex(Some(c))) case None => o.color
  {
    var a := match ColorDecl(s) case Some(c) => SetColor(o, ParseToHex(Some(c))) case None => o;
    var b := if BoldDecl(s) then SetFlag(a, BoldKey) else a;
    var c := if ItalicDecl(s) then SetFlag(b, ItalicKey) else b;
    var d := if LineThroughDecl(s) then SetFlag(c, StrikethroughKey) else c;
    var e := if UnderlineDecl(s) then SetFlag(d, UnderlineKey) else d;
    assert Declarations(o, s) == e;
    assert e.color == d.color == c.color == b.color == a.color;
  }

  /** Outside `<font>`, the fragment's colour is `ColorBeforeFont`: the name flags never touch it. */
  lemma {:induction false} FragmentColor(name: string, attrs: string)
    ensures name != "font" ==> Fragment(name, attrs).color == ColorBeforeFont(attrs)
    ensures name == "font" ==>
      Fragment(name, attrs).color
        == match FontColorAttr(attrs) case Some(c) => Some(ParseToHex(Some(c))) case None => ColorBeforeFont(attrs)
  {
    var o1 := match StyleAttr(attrs) case Some(s) => Declarations(Empty, s) case None => Empty;
    match StyleAttr(attrs) {
      case Some(s) => DeclarationsColor(Empty, s);
      case None =>
    }
    var o2 := match ColorAttr(attrs)
      case Some(c) => if !HasTruthyColor(o1) then SetColor(o1, ParseToHex(Some(c))) else o1
      case None => o1;
    assert o2.color == ColorBeforeFont(attrs);
    var o3 := if name == "b" || name == "strong" then SetFlag(o2, BoldKey) else o2;
    var o4 := if name == "i" || name == "em" then SetFlag(o3, ItalicKey) else o3;
    var o5 := if name == "u" then SetFlag(o4, UnderlineKey) else o4;
    var o6 := if name == "s" || name == "strike" || name == "del" then SetFlag(o5, StrikethroughKey) else o5;
    assert o6.color == o2.color;
    if name == "font" {
      assert Fragment(name, attrs)
        == match FontColorAttr(attrs) case Some(c) => SetColor(o6, ParseToHex(Some(c))) case None => o6;
    } else {
      assert Fragment(name, attrs) == o6;
    }
  }

  /**
   * A colour the `style` attribute gives, when `parseToHex` accepts it,
   * beats a bare `color="…"` attribute.
   */
  lemma {:induction false} StyleColorBeatsColorAttr(name: string, attrs: string, s: string, c: string)
    requires name != "font"
    requires StyleAttr(attrs) == Some(s) && ColorDecl(s) == Some(c)
    requires ParseToHex(Some(c)).Some?
    ensures Fragment(name, attrs).color == Some(ParseToHex(Some(c)))
  {
    FragmentColor(name, attrs);
    DeclarationsColor(Empty, s);
  }

  /**
   * A bare `color="…"` attribute decides the colour when the `style`
   * attribute gives none, or one `parseToHex` refuses.
   */
  lemma {:induction false} ColorAttrWhenStyleHasNone(name: string, attrs: string, c: string)
    requires name != "font"
    requires ColorAttr(attrs) == Some(c)
    requires StyleAttr(attrs).None? || ColorDecl(StyleAttr(attrs).value).None?
      || ParseToHex(ColorDecl(StyleAttr(attrs).value)).None?
    ensures Fragment(name, attrs).color == Some(ParseToHex(Some(c)))
  {
    FragmentColor(name, attrs);
    if StyleAttr(attrs).Some? {
      DeclarationsColor(Empty, StyleAttr(attrs).value);
    }
  }

  /** A `<font color>` attribute sets the colour whatever the other attributes say. */
  lemma {:induction false} FontColorWins(attrs: string, c: string)
    requires FontColorAttr(attrs) == Some(c)
    ensures Fragment("font", attrs).color == Some(ParseToHex(Some(c)))
  {
    FragmentColor("font", attrs);
  }
}
