/**
 * `buildRichTextFromData` in `TaskService.js`: the editor in the browser
 * sends its text with a list of styled runs, and the service turns each
 * run into a `setTextStyle` call on a rich-text builder, clamping the run
 * into the text first and skipping it when nothing is left.
 */
module RichTextFromClient {
  import opened Wrappers
  import opened RichText

  /** A run's style as the client sends it; a colour is applied only when it is a non-empty string. */
  datatype ClientStyle = ClientStyle(bold: bool, italic: bool, underline: bool, strikethrough: bool, color: Option<string>)

  /** A run as the client sends it; a missing or non-numeric bound is None. */
  datatype ClientRun = ClientRun(start: Option<int>, stop: Option<int>, style: ClientStyle)

  /** The client's rich text: its text and, perhaps, its runs. */
  datatype ClientRichText = ClientRichText(text: string, runs: Option<seq<ClientRun>>)

  /**
   * `Math.max(0, Math.min(x, len))`: a bound is clamped into `[0, len]`; a
   * NaN bound stays NaN.
   */
  function Clamp(x: Option<int>, len: nat): (r: Option<int>)
    ensures r.Some? <==> x.Some?
    ensures r.Some? ==> 0 <= r.value <= len
    ensures r.Some? && 0 <= x.value <= len ==> r.value == x.value
    ensures r.Some? && x.value < 0 ==> r.value == 0
    ensures r.Some? && len < x.value ==> r.value == len
  {
    match x
    case None => None
    case Some(v) => Some(if v < 0 then 0 else if v > len then len else v)
  }

  /** The text style the builder gets from a client style. */
  function TextStyleOf(s: ClientStyle): (t: Style)
    ensures t.bold == s.bold && t.italic == s.italic && t.underline == s.underline && t.strikethrough == s.strikethrough
    ensures t.color.Some? <==> s.color.Some? && s.color.value != ""
    ensures t.color.Some? ==> t.color == s.color
  {
    Style(s.bold, s.italic, s.underline, s.strikethrough, if s.color.Some? && s.color.value != "" then s.color else None)
  }

  /**
   * The `setTextStyle` call one client run makes, if any: the clamped
   * bounds when the start is below the end. A run inside the text is
   * applied as sent; no run is ever applied outside it.
   */
  function ApplyRun(run: ClientRun, len: nat): (r: Option<Run>)
    ensures r.Some? ==> 0 <= r.value.start < r.value.end <= len && r.value.style == TextStyleOf(run.style)
    ensures r.Some? ==> run.start.Some? && run.stop.Some? && run.start.value < run.stop.value
    ensures run.start.Some? && run.stop.Some? && 0 <= run.start.value < run.stop.value <= len
      ==> r == Some(Run(run.start.value, run.stop.value, TextStyleOf(run.style)))
  {
    var s := Clamp(run.start, len);
    var e := Clamp(run.stop, len);
    if s.Some? && e.Some? && s.value < e.value then Some(Run(s.value, e.value, TextStyleOf(run.style))) else None
  }

  /** The `setTextStyle` calls the runs make, in order. */
  function AppliedRuns(runs: seq<ClientRun>, len: nat): (out: seq<Run>)
    ensures |out| <= |runs|
  {
    if runs == [] then []
    else
      var last := match ApplyRun(runs[|runs| - 1], len) case Some(r) => [r] case None => [];
      AppliedRuns(runs[..|runs| - 1], len) + last
  }

  /** Every applied run is a non-empty range inside the text. */
  lemma {:induction false} AppliedRunsInText(runs: seq<ClientRun>, len: nat)
    ensures forall r | r in AppliedRuns(runs, len) :: 0 <= r.start < r.end <= len
  {
    if runs != [] {
      AppliedRunsInText(runs[..|runs| - 1], len);
    }
  }

  /** A range is applied exactly when some client run makes it. */
  lemma {:induction false} AppliedRunsExactly(runs: seq<ClientRun>, len: nat, r: Run)
    ensures r in AppliedRuns(runs, len) <==> exists k | 0 <= k < |runs| :: ApplyRun(runs[k], len) == Some(r)
  {
    if runs != [] {
      var init := runs[..|runs| - 1];
      var last := |runs| - 1;
      AppliedRunsExactly(init, len, r);
      if r in AppliedRuns(runs, len) {
        if r in AppliedRuns(init, len) {
          var k :| 0 <= k < |init| && ApplyRun(init[k], len) == Some(r);
          assert runs[k] == init[k];
        } else {
          assert ApplyRun(runs[last], len) == Some(r);
        }
      } else {
        forall k | 0 <= k < |runs| ensures ApplyRun(runs[k], len) != Some(r) {
          if k < last {
            assert runs[k] == init[k];
          }
        }
      }
    }
  }

  /**
   * `buildRichTextFromData`: no data or an empty text gives the empty
   * value; otherwise the text with the runs `AppliedRuns` makes of the
   * client's runs, each a non-empty range inside the text.
   */
  method BuildRichTextFromData(data: Option<ClientRichText>) returns (v: RichTextValue)
    ensures data.None? || data.value.text == "" ==> v == RichTextValue("", [])
    ensures data.Some? && data.value.text != "" ==>
      v == RichTextValue(data.value.text, AppliedRuns(data.value.runs.GetOr([]), |data.value.text|))
    ensures WellFormed(v) && forall r | r in v.runs :: r.start < r.end
  {
    if data.None? || data.value.text == "" {
      return RichTextValue("", []);
    }
    var text := data.value.text;
    var runs: seq<Run> := [];
    var input := data.value.runs.GetOr([]);
    for k := 0 to |input|
      invariant runs == AppliedRuns(input[..k], |text|)
    {
      var run := input[k];
      var start := Clamp(run.start, |text|);
      var stop := Clamp(run.stop, |text|);
      if start.Some? && stop.Some? && start.value < stop.value {
        runs := runs + [Run(start.value, stop.value, TextStyleOf(run.style))];
      }
      assert input[..k + 1][..k] == input[..k];
    }
    assert input[..|input|] == input;
    AppliedRunsInText(input, |text|);
    v := RichTextValue(text, runs);
  }
}
