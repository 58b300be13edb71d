/**
 * The plain-text projection of `htmlToRichText` (RichTextLib.js:59-71):
 * line-break and block tags become newlines, every other tag is dropped,
 * five entities are decoded and one leading newline is removed.
 */
module PlainText {
  import opened JsText
  import opened Patterns

  /** `decode`: five global replacements, applied in this order. */
  function DecodeEntities(s: string): string {
    var a := ReplaceAll(s, Literal("&nbsp;"), " ");
    var b := ReplaceAll(a, Literal("&amp;"), "&");
    var c := ReplaceAll(b, Literal("&lt;"), "<");
    var d := ReplaceAll(c, Literal("&gt;"), ">");
    ReplaceAll(d, Literal("&quot;"), "\"")
  }

  /** `.replace(/^\n/, "")`. */
  function DropLeadingNewline(s: string): (r: string)
    ensures s != [] && s[0] == '\n' ==> r == s[1..]
    ensures (s == [] || s[0] != '\n') ==> r == s
  {
    if s != [] && s[0] == '\n' then s[1..] else s
  }

  /** `toPlainText`. */
  function ToPlainText(h: string): string {
    var a := ReplaceAll(h, BrTag, "\n");
    var b := ReplaceAll(a, BlockOpenTag, "\n");
    var c := ReplaceAll(b, AnyTag, "");
    DropLeadingNewline(DecodeEntities(c))
  }

  /** The plain-text offset of the HTML offset `i`: `toPlainText(html.substring(0, i)).length`. */
  function PlainOffset(html: string, i: nat): nat
    requires i <= |html|
  {
    |ToPlainText(html[..i])|
  }
}

/** Facts about the projection. */
module PlainTextFacts {
  import opened Wrappers
  import opened JsText
  import opened Patterns
  import opened PlainText

  /** Text with neither markup nor entities is projected onto itself, less one leading newline. */
  lemma {:induction false} PlainTextOfText(t: string)
    requires '<' !in t && '&' !in t
    ensures ToPlainText(t) == DropLeadingNewline(t)
  {
    ReplaceAllWithoutLead(t, BrTag, "\n");
    ReplaceAllWithoutLead(t, BlockOpenTag, "\n");
    ReplaceAllWithoutLead(t, AnyTag, "");
    ReplaceAllWithoutLead(t, Literal("&nbsp;"), " ");
    ReplaceAllWithoutLead(t, Literal("&amp;"), "&");
    ReplaceAllWithoutLead(t, Literal("&lt;"), "<");
    ReplaceAllWithoutLead(t, Literal("&gt;"), ">");
    ReplaceAllWithoutLead(t, Literal("&quot;"), "\"");
  }

  lemma {:induction false} CascadeNbspPass(y: string)
    requires '&' !in y
    ensures ReplaceAll("&amp;lt;" + y, Literal("&nbsp;"), " ") == "&amp;lt;" + y
  {
    var a := "&amp;lt;";
    assert '&' !in a[1..];
    assert (a + y)[1] == 'a';
    ReplaceAllNoMatchHead(a, y, "&nbsp;", " ");
    ReplaceAllWithoutLead(y, Literal("&nbsp;"), " ");
  }

  lemma {:induction false} CascadeAmpPass(y: string)
    requires '&' !in y
    ensures ReplaceAll("&amp;lt;" + y, Literal("&amp;"), "&") == "&lt;" + y
  {
    var a, lt := "&amp;", "lt;";
    assert "&amp;lt;" + y == a + (lt + y);
    assert MatchLen(Literal("&amp;"), a + (lt + y)) == Some(|a|);
    ReplaceAllAtMatch(a, lt + y, Literal("&amp;"), "&");
    assert '&' !in lt;
    ReplaceAllSkip(lt, y, Literal("&amp;"), "&");
    ReplaceAllWithoutLead(y, Literal("&amp;"), "&");
    assert "&" + (lt + y) == "&lt;" + y;
  }

  lemma {:induction false} CascadeLtPass(y: string)
    ensures ReplaceAll("&lt;" + y, Literal("&lt;"), "<") == "<" + ReplaceAll(y, Literal("&lt;"), "<")
  {
    var a := "&lt;";
    assert MatchLen(Literal("&lt;"), a + y) == Some(|a|);
    ReplaceAllAtMatch(a, y, Literal("&lt;"), "<");
  }

  /**
   * The entity passes run one after the other, so `&amp;lt;` is first
   * turned into `&lt;` and then into `<`: an escaped entity is decoded twice.
   */
  lemma {:induction false} EntityCascade(y: string)
    requires '&' !in y
    ensures DecodeEntities("&amp;lt;" + y) == "<" + y
  {
    CascadeNbspPass(y);
    CascadeAmpPass(y);
    CascadeLtPass(y);
    ReplaceAllWithoutLead(y, Literal("&lt;"), "<");
    var c := "<" + y;
    assert '&' !in c;
    ReplaceAllWithoutLead(c, Literal("&gt;"), ">");
    ReplaceAllWithoutLead(c, Literal("&quot;"), "\"");
  }
}
