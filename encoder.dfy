/**
 * `richTextToHtml` (RichTextLib.js:13-49): a cell value becomes HTML. Text
 * is escaped, each run is wrapped in the tags of its style, and line breaks
 * become `<br>`.
 */
module Encoder {
  import opened Wrappers
  import opened Patterns
  import opened RichText

  /** What the encoder may be handed: nothing, a plain string, or a rich-text value. */
  datatype Input = Absent | Str(s: string) | Rich(value: RichTextValue)

  /** `.replace(/&/g, "&amp;").replace(/</g, "&lt;").replace(/>/g, "&gt;")`. */
  function EscapeHtml(t: string): string {
    ReplaceAll(ReplaceAll(ReplaceAll(t, Literal("&"), "&amp;"), Literal("<"), "&lt;"), Literal(">"), "&gt;")
  }

  /** `.replace(/\r\n|\r|\n/g, "<br>")`. */
  function BreakLines(t: string): string {
    ReplaceAll(t, LineBreak, "<br>")
  }

  /** The encoding of a plain string, or of a value without runs. */
  function EncodePlain(t: string): string {
    BreakLines(EscapeHtml(t))
  }

  /** `color && color !== '#000000'`: the colours that get a span. */
  predicate ShowsColor(c: Option<string>) {
    c.Some? && c.value != "" && c.value != "#000000"
  }

  /** The opening tag of the colour span. */
  function SpanOpen(color: string): string {
    "<span style=\"color:" + color + "\">"
  }

  /** The tags around the escaped text of a run, `<b>` innermost and the span outermost. */
  function WrapRun(t: string, style: Style): string {
    var b := if style.bold then "<b>" + t + "</b>" else t;
    var i := if style.italic then "<i>" + b + "</i>" else b;
    var s := if style.strikethrough then "<s>" + i + "</s>" else i;
    var u := if style.underline then "<u>" + s + "</u>" else s;
    if ShowsColor(style.color) then SpanOpen(style.color.value) + u + "</span>" else u
  }

  /** `run.getText()`. */
  function RunText(v: RichTextValue, r: Run): string
    requires 0 <= r.start <= r.end <= |v.text|
  {
    v.text[r.start..r.end]
  }

  /** What one run contributes: nothing for an empty run, else its escaped, wrapped text. */
  function Fragment(v: RichTextValue, r: Run): string
    requires 0 <= r.start <= r.end <= |v.text|
  {
    var t := RunText(v, r);
    if t == "" then "" else WrapRun(EscapeHtml(t), r.style)
  }

  /** The fragments of `runs`, concatenated in order. */
  function Fragments(v: RichTextValue, runs: seq<Run>): string
    requires forall r | r in runs :: 0 <= r.start <= r.end <= |v.text|
  {
    if runs == [] then ""
    else Fragments(v, runs[..|runs| - 1]) + Fragment(v, runs[|runs| - 1])
  }

  /** The fragments of a prefix of `runs` grow by the fragment of the next run. */
  lemma {:induction false} FragmentsSnoc(v: RichTextValue, runs: seq<Run>, k: nat)
    requires k < |runs| && forall r | r in runs :: 0 <= r.start <= r.end <= |v.text|
    ensures Fragments(v, runs[..k + 1]) == Fragments(v, runs[..k]) + Fragment(v, runs[k])
  {
    assert runs[..k + 1][..k] == runs[..k];
  }

  /** The value `richTextToHtml` returns. */
  function Encode(input: Input): string
    requires input.Rich? ==> WellFormed(input.value)
  {
    match input
    case Absent => ""
    case Str(s) => EncodePlain(s)
    case Rich(v) =>
      if v.runs == [] then EncodePlain(v.text)
      else BreakLines(Fragments(v, v.runs))
  }

  /** The body of the loop over the runs: the tags of `style` added around `t` one by one, the span last. */
  method WrapTags(t: string, style: Style) returns (tagged: string)
    ensures tagged == WrapRun(t, style)
  {
    tagged := t;
    if style.bold { tagged := "<b>" + tagged + "</b>"; }
    if style.italic { tagged := "<i>" + tagged + "</i>"; }
    if style.strikethrough { tagged := "<s>" + tagged + "</s>"; }
    if style.underline { tagged := "<u>" + tagged + "</u>"; }
    var color := style.color;
    if color.Some? && color.value != "" && color.value != "#000000" {
      tagged := "<span style=\"color:" + color.value + "\">" + tagged + "</span>";
    }
  }

  /** `richTextToHtml`: the loop over the runs appends each fragment to `html`. */
  method RichTextToHtml(input: Input) returns (html: string)
    requires input.Rich? ==> WellFormed(input.value)
    ensures html == Encode(input)
  {
    match input
    case Absent =>
      return "";
    case Str(s) =>
      if s == "" {
        return "";
      }
      return BreakLines(EscapeHtml(s));
    case Rich(v) =>
      if |v.runs| == 0 {
        return BreakLines(EscapeHtml(v.text));
      }
      html := "";
      var k := 0;
      while k < |v.runs|
        invariant 0 <= k <= |v.runs|
        invariant html == Fragments(v, v.runs[..k])
      {
        var run := v.runs[k];
        assert run in v.runs;
        var runText := v.text[run.start..run.end];
        if runText != "" {
          runText := EscapeHtml(runText);
          var tagged := WrapTags(runText, run.style);
          html := html + tagged;
        }
        FragmentsSnoc(v, v.runs, k);
        k := k + 1;
      }
      assert v.runs[..k] == v.runs;
      html := BreakLines(html);
  }
}
