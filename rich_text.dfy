/**
 * The rich-text value exchanged with the spreadsheet, standing in for
 * Sheets' `RichTextValue`, `TextStyle` and their builders: a text and a
 * sequence of styled runs, each `setTextStyle(start, end, style)` call
 * (or each run `getRuns()` reports) being one `Run`.
 */
module RichText {
  import opened Wrappers

  /** A text style: four flags and an optional foreground colour. */
  datatype Style = Style(bold: bool, italic: bool, underline: bool, strikethrough: bool, color: Option<string>)

  /** The style with nothing set. */
  const PlainStyle := Style(false, false, false, false, None)

  /** Whether the style sets anything at all. */
  predicate HasStyle(s: Style) {
    s.bold || s.italic || s.underline || s.strikethrough || s.color.Some?
  }

  /** The characters `[start, end)` of the text carry `style`. */
  datatype Run = Run(start: int, end: int, style: Style)

  datatype RichTextValue = RichTextValue(text: string, runs: seq<Run>)

  /** Every run lies within the text, as the runs of a spreadsheet value always do. */
  predicate WellFormed(v: RichTextValue) {
    forall r | r in v.runs :: 0 <= r.start <= r.end <= |v.text|
  }

  /**
   * The runs follow one another without gaps from the start of the text to
   * its end, as `getRuns()` reports them.
   */
  predicate CoversText(v: RichTextValue) {
    && WellFormed(v)
    && |v.runs| > 0
    && v.runs[0].start == 0
    && v.runs[|v.runs| - 1].end == |v.text|
    && forall i | 0 <= i < |v.runs| - 1 :: v.runs[i].end == v.runs[i + 1].start
  }
}
