# Task board rich-text codec and row logic, in Dafny

This project models the core of a spreadsheet-backed task board (a Google
Apps Script web app) and proves properties of the model.

**`RichTextLib.js`**, the styled-text codec:

- `parseToHex` (module `Color`) normalises a colour written as `#rgb`,
  `#rrggbb`, `#rrggbbaa`, `rgb(r, g, b)` or one of nine names into
  `#rrggbb`, or `null`.
- `richTextToHtml` (module `Encoder`) turns a cell's text and styled runs
  into HTML. It escapes the text, wraps each run in the tags of its style,
  suppresses black colour spans and turns line breaks into `<br>`.
- `htmlToRichText` (modules `PlainText`, `TagScan`, `Decoder`) works in
  three steps:
  - it projects HTML onto plain text;
  - it scans the tags with a stack of open tags, merging each closed tag's
    style into a per-character array of style objects;
  - it coalesces that array into runs.

**`TaskService.js`**, the row logic over the sheet's values (modules
`TaskService`, `RichTextFromClient`):

- the ID and display-number allocators `getNextId` and `getNextNo`;
- the row search by ID in `saveTask` and `deleteTask`;
- what `saveTask` writes: ID, display number and label;
- the range clamping of `buildRichTextFromData`.

The spreadsheet's rich-text value and its builders are the datatype
`RichText.RichTextValue`: a text plus a sequence of `(start, end, style)`
runs. Each run is one `setTextStyle` call, or one run reported by
`getRuns()`. The sheet itself is the value `getDataRange().getValues()`
returns: a header row followed by the task rows.

## How the model is organised

- **Pure code becomes functions, with lemmas about them.** This covers
  `parseToHex`, the escaping and line-break replacements, the plain-text
  projection, the tag regex and attribute extractors (each a small
  hand-written scanner), `getNextId` and `getNextNo`.
- **Loops become methods with loop invariants.** Each method is proved
  equal to a specification function whose properties are proved as lemmas:
  - the encoder's loop over the runs (`Encoder.RichTextToHtml`);
  - the decoder's tag loop (`Decoder.ApplyTags`, `Decoder.ApplyMatch`,
    `Decoder.ApplyTag`, `Decoder.CloseTag`, `Decoder.MergeInto`), called
    from `Decoder.HtmlToRichText`;
  - the run-coalescing loop (`Decoder.CoalesceRuns`);
  - the row search (`TaskService.FindTaskRow`);
  - the run loop of `buildRichTextFromData`
    (`RichTextFromClient.BuildRichTextFromData`).
- **`charStyles` is an array updated in place.** Its entries are
  insertion-ordered style objects (`StyleObject.StyleObj`). Every object
  lists each key once, and exactly the keys set
  (`TagScanFacts.CharStylesValid`). Because of that and the key order,
  equality of two objects is exactly the equality of their
  `JSON.stringify` forms, which the coalescing loop compares.
- **Independent reference definitions carry the properties:**
  - `EncoderFacts.Visible` reads HTML back token by token;
  - `EncoderFacts.EscapeRef` escapes character by character;
  - `Decoder.Coalesced` says what the runs of a style array are (the
    maximal blocks of equal objects whose style sets something);
  - `TagScan.ScanFrom` is the tag scan written as a function.
- **The styled round trip joins the encoder to the decoder**
  (`StyledRoundTrip.RoundTrip`). The modules `RunTokens`, `HtmlTokens` and
  `RunScan` carry its proof:
  - the encoding of a value is written as a sequence of tokens: opening
    tags, characters and closing tags (`RunTokens.EncodingIsTokens`);
  - the plain text and the tag scan of rendered tokens are computed token
    by token (`HtmlTokens.CharStylesOfTokens`);
  - the scan of each run's tokens merges the run's tag styles over its
    characters (`RunScan.ScanRuns`).

## Model

| member | source | states |
|---|---|---|
| Color.ParseToHex | RichTextLib.js:168-187 | absent or empty input gives `null`; any colour returned starts with `#` and has at least seven characters |
| Color.HashForm | RichTextLib.js:171-174 | a `#` token of length 4, 7 or 9 gives `#` plus six characters |
| Color.RgbForm | RichTextLib.js:175-181 | the `rgb()` result is `#` followed by at least six characters, each channel at least two hex digits; ColorFacts.RgbRoundTrip states that each pair reads back as its channel |
| Color.NamedColor | RichTextLib.js:182-186 | a recognised name maps to `#` plus six characters; ColorFacts.NamedColorExact states that exactly the nine own keys are recognised |
| ColorFacts.HashFormShape | RichTextLib.js:171-174 | a `#` token is accepted exactly at lengths 4, 7 and 9; a short form doubles each digit, a long one keeps its first seven characters; the digits are not validated |
| ColorFacts.HexByteRoundTrip | RichTextLib.js:177-179 | a channel in 0..255 becomes exactly two lower-case hex digits that read back as the channel |
| ColorFacts.HexByteUnclamped | RichTextLib.js:177-179 | a channel above 255 is not clamped and takes three or more digits |
| ColorFacts.RgbRoundTrip | RichTextLib.js:175-181 | `rgb(r, g, b)` with channels in 0..255 gives `#` and six lower-case digits, each pair reading back as its channel |
| ColorFacts.RgbUnclamped | RichTextLib.js:175-181 | a channel above 255 makes the result longer than seven characters |
| ColorFacts.NamedPath | RichTextLib.js:168-186 | a token that is neither a `#` form nor holds an `rgb(…)` gives its `basicColors` entry when it is one of the nine names, and `null` otherwise |
| ColorFacts.NamedColorExact | RichTextLib.js:182-186 | a name is recognised exactly when it is one of the nine keys, and maps to `#` plus six lower-case hex digits |
| ColorFacts.CanonicalLowerCase | RichTextLib.js:170 | the token classified (trimmed, lower-cased, cut at `;`) is lower case |
| ColorFacts.ParseToHexLowerCase | RichTextLib.js:168-187 | every result is lower case |
| ColorFacts.CanonicalOfClean | RichTextLib.js:170 | a trimmed, lower-case token without `;` is its own canonical form |
| ColorFacts.ParseToHexFixedPoint | RichTextLib.js:170-173 | a seven-character result with no whitespace and no `;` is a fixed point of `parseToHex` |
| ColorFacts.ParseToHexNotAlwaysFixedPoint | RichTextLib.js:170-173 | a nine-character `#` token with whitespace at index 6 gives a seven-character result that `parseToHex` then refuses |
| ColorFacts.NoRgbWithoutG | RichTextLib.js:175 | a token without the letter `g` contains no `rgb(…)` |
| ColorFacts.ConstructorIsNotAColor | RichTextLib.js:182-186 | as written, the token `constructor` yields the `Object` function instead of `null`; the corrected lookup gives `null` |
| ColorFacts.AsWrittenAgreesOnOtherTokens | RichTextLib.js:168-187 | on every other token, the lookup of own keys agrees with the code as written |
| StyleObject.ToStyle | RichTextLib.js:142-150 | the style of a run sets something exactly when its object has a truthy colour or a flag |
| StyleObject.Assign | RichTextLib.js:94 | `Object.assign` keeps a style object well formed: each key listed once, exactly the keys set |
| StyleObject.CopyKeys | RichTextLib.js:94 | copying the source's keys one by one, as `Object.assign` does, keeps a well-formed object well formed; StyleObjectFacts.AssignValues states the values copied |
| StyleObjectFacts.AssignValues | RichTextLib.js:94 | every property of the source overwrites the target's, a `null` colour included; the target keeps the rest |
| StyleObjectFacts.AssignKeyOrder | RichTextLib.js:94 | keys already present keep their place and new keys come after them, as `JSON.stringify` writes them |
| StyleObjectFacts.LaterAssignWins | RichTextLib.js:91-95 | of two merges that both set the colour, the later one decides it |
| PlainText.DecodeEntities | RichTextLib.js:59 | five global replacements in the source's order (no contract of its own); CodecFacts.PassOver states what each pass unescapes, CodecFacts.DecodeUndoesEscape that the chain undoes the encoder's escaping on `&`-free text, and PlainTextFacts.EntityCascade that `&amp;lt;` decodes to `<` |
| PlainText.DropLeadingNewline | RichTextLib.js:70 | exactly one leading newline is removed, and nothing else |
| PlainText.ToPlainText | RichTextLib.js:65-71 | `<br>` and block openers become newlines, other tags vanish, entities are decoded and one leading newline is dropped (no contract of its own); PlainTextFacts.PlainTextOfText, HtmlTokens.PlainOfRender and CodecFacts.PlainRoundTrip state what it returns for text, for rendered tokens and for the encoder's output |
| PlainTextFacts.PlainTextOfText | RichTextLib.js:65-71 | text with no markup and no entities projects onto itself, less one leading newline |
| PlainTextFacts.EntityCascade | RichTextLib.js:59 | the entity passes run in order, so `&amp;lt;` decodes to `<` |
| TagScan.TagAt | RichTextLib.js:79 | a match of the tag pattern has a positive length within the input |
| TagScan.FindTag | RichTextLib.js:79-82 | a match found from `pos` starts at or after `pos` and lies within the HTML |
| TagScan.FindTagMatches | RichTextLib.js:79-82 | what `exec` finds is a match of the tag pattern at its index |
| TagScan.FindTagLeftmost | RichTextLib.js:79-82 | no match starts between `lastIndex` and the match found |
| TagScan.FindTagNone | RichTextLib.js:79-82 | `exec` returns `null` only when no position from `lastIndex` on starts a match |
| TagScan.StyleAt | RichTextLib.js:104 | the value of a `style` attribute holds no quote |
| TagScan.ColorValueAt | RichTextLib.js:107 | a colour value found in a declaration is a non-empty prefix of the text after `color:` |
| TagScan.Declarations | RichTextLib.js:105-113 | the declarations of a `style` attribute keep the style object well formed |
| TagScan.Fragment | RichTextLib.js:101-126 | the style object an opening tag pushes is well formed |
| TagScan.TopmostIndex | RichTextLib.js:89-90 | the backward search finds the last stack entry of the name, or reports that there is none |
| TagScan.Merge | RichTextLib.js:92-96 | merging keeps the length of `charStyles` |
| TagScan.Step | RichTextLib.js:83-129 | one tag keeps the length of `charStyles` |
| TagScan.ScanFrom | RichTextLib.js:82-130 | the scan keeps the length of `charStyles` |
| TagScan.ScanAdvance | RichTextLib.js:82-85 | a scan from `pos` whose first match is `tag` ends where the scan from just after `tag` ends, begun in the state that tag's step makes, at the plain offset of its start |
| TagScan.ScanFromNone | RichTextLib.js:82 | when `exec` finds nothing from `pos`, the scan leaves the state as it is |
| TagScan.InitialStyles | RichTextLib.js:75 | `charStyles` starts as one `{}` per character of the plain text |
| TagScan.CharStyles | RichTextLib.js:73-130 | after the scan there is one style object per character of the plain text |
| TagScanFacts.CloseRemovesTopmost | RichTextLib.js:87-99 | a closing tag removes the topmost entry of its name, wherever it is in the stack, and merges that entry's style over the characters it spanned |
| TagScanFacts.UnmatchedCloseIsNoOp | RichTextLib.js:87-99 | a closing tag with no open entry of its name changes nothing |
| TagScanFacts.BrIsNeverPushed | RichTextLib.js:101 | `br` is neither pushed nor merged |
| TagScanFacts.OpenPushes | RichTextLib.js:100-128 | any other opening tag is pushed with its plain offset and fragment, and the styles wait for its close |
| TagScanFacts.OpeningKeepsStyles | RichTextLib.js:100-128 | only a closing tag changes `charStyles` |
| TagScanFacts.OpeningStep | RichTextLib.js:100-128 | after an opening tag, the scan goes on in a state with the same `charStyles` and ends where it would have |
| TagScanFacts.UnclosedTagsContributeNothing | RichTextLib.js:82-130 | a scan that meets no closing tag leaves `charStyles` as it was, whatever it pushes |
| TagScanFacts.MergeOnlyInRange | RichTextLib.js:92-96 | closing a tag changes only the characters from its start up to the close's plain offset; on each, every property the tag's style sets (a `null` colour included) replaces the character's and the others stay; every other character is left as it was |
| TagScanFacts.OuterTagWins | RichTextLib.js:91-95 | of two nested tags that both set the colour, the outer one, closed later, wins on every character both cover |
| TagScanFacts.TagNameFlags | RichTextLib.js:117-120 | `b`/`strong` set bold, `i`/`em` italic, `u` underline, `s`/`strike`/`del` strikethrough, whatever the attributes say |
| TagScanFacts.DeclarationsColor | RichTextLib.js:107-108 | the colour of a `style` attribute is its first `color:` value, passed through `parseToHex` |
| TagScanFacts.FragmentColor | RichTextLib.js:103-126 | the fragment's colour comes from `style`, else from `color="…"`; in a `<font>`, its `color` attribute overrides both |
| TagScanFacts.StyleColorBeatsColorAttr | RichTextLib.js:104-115 | a colour the `style` attribute gives, when `parseToHex` accepts it, beats a bare `color="…"` |
| TagScanFacts.ColorAttrWhenStyleHasNone | RichTextLib.js:114-115 | a bare `color="…"` decides when `style` gives no colour, or one `parseToHex` refuses |
| TagScanFacts.FontColorWins | RichTextLib.js:123-126 | a `<font color>` attribute sets the colour unconditionally |
| TagScanFacts.CharStylesValid | RichTextLib.js:73-130 | every object of `charStyles` lists each key once, and exactly the keys set, so structural equality of two objects is equality of their `JSON.stringify` forms |
| Decoder.BlockEnds | RichTextLib.js:139-141 | a block of equal objects that the next character does not continue, or that reaches the end, is maximal |
| Decoder.BlockGrows | RichTextLib.js:139-141 | a block that the next character's equal object continues grows by one |
| Decoder.Flush | RichTextLib.js:141-155 | at the end of a maximal block, a run with the block's style is added exactly when that style sets something, and the coalescing invariant holds up to the block's end |
| Decoder.FlushStyled | RichTextLib.js:141-155 | closing a maximal block whose style sets something adds its run and keeps the coalescing invariant |
| Decoder.FlushPlain | RichTextLib.js:141-155 | closing a maximal block whose style sets nothing adds no run and keeps the invariant |
| Decoder.CoalesceRuns | RichTextLib.js:133-158 | the runs emitted are the maximal blocks of equal style objects whose style sets something, in order, each with that style |
| Decoder.MergeInto | RichTextLib.js:92-96 | the loop assigns the fragment onto `charStyles[j]` for `from <= j < to` within the array, and changes nothing else |
| Decoder.CloseTag | RichTextLib.js:87-99 | a closing tag splices out the topmost entry of its name and merges its style, or changes nothing |
| Decoder.ApplyTag | RichTextLib.js:83-129 | one matched tag updates the stack and `charStyles` as `Step` says |
| Decoder.ApplyMatch | RichTextLib.js:82-129 | one pass applies the match found from `pos` and moves past it; the scan from there ends in the same state as before the pass |
| Decoder.ApplyTags | RichTextLib.js:78-130 | the tag loop, from an empty stack, leaves `charStyles` as the scan function `TagScan.ScanFrom` says |
| Decoder.HtmlToRichText | RichTextLib.js:56-161 | empty input gives the empty value; the text is the plain projection; the runs are the coalesced runs of the scanned `charStyles` |
| DecoderFacts.RunCharsHaveItsStyle | RichTextLib.js:133-158 | every character of an emitted run carries its style; runs lie within the text and each sets something |
| DecoderFacts.MaximalBlocksMeet | RichTextLib.js:133-158 | two maximal blocks that share a character are the same block |
| DecoderFacts.OrderedStarts | RichTextLib.js:133-158 | emitted runs start at strictly increasing positions and do not overlap |
| DecoderFacts.CoalescedSameSet | RichTextLib.js:133-158 | any two coalescings of the same array hold the same runs |
| DecoderFacts.SameOrderedRuns | RichTextLib.js:133-158 | two run lists ordered by strictly increasing start and holding the same runs are equal |
| DecoderFacts.CoalescedUnique | RichTextLib.js:133-158 | the runs are determined by `charStyles`: any two lists meeting the coalescing specification are equal |
| DecoderFacts.BoundaryIffChange | RichTextLib.js:139-141 | two neighbouring characters, the first styled, lie in one run exactly when their style objects serialise alike |
| Encoder.EscapeHtml | RichTextLib.js:30 | the three replacements of lines 15, 21 and 30 (no contract of its own); EncoderFacts.EscapeMatchesReference states that they escape each character exactly once, and CodecFacts.DecodeUndoesEscape that decoding undoes them |
| Encoder.BreakLines | RichTextLib.js:48 | every `\r\n`, `\r` or `\n` becomes `<br>` (no contract of its own); CodecFacts.BrPassUndoesBreakLines states that the decoder's `<br>` pass turns them back into newlines |
| Encoder.Encode | RichTextLib.js:13-49 | `""` for no input, the escaped and broken text for a string or a value without runs, else the broken concatenation of the wrapped fragments (no contract of its own); EncoderFacts.PlainEncodingReadsBack, EncoderFacts.EncodingReadsBack and StyledRoundTrip.RoundTrip state what the decoder reads back from it |
| Encoder.WrapTags | RichTextLib.js:33-43 | the loop body wraps a run's escaped text as `WrapRun` does, whose nesting `EncoderFacts.WrapNesting` states: `<b>` innermost, then `<i>`, `<s>`, `<u>`, the colour span outermost |
| Encoder.FragmentsSnoc | RichTextLib.js:25-46 | the fragments of the runs before `k + 1` are those before `k` followed by the fragment of run `k` |
| Encoder.RichTextToHtml | RichTextLib.js:13-49 | the loop over the runs returns the encoding: escaped fragments concatenated in run order, then line breaks as `<br>` |
| EncoderFacts.EscapeMatchesReference | RichTextLib.js:15 | escaping `&` first, then `<` and `>`, escapes every character exactly once |
| EncoderFacts.EscapeRefChars | RichTextLib.js:30 | escaped text holds no `<` or `>`, and nothing but the text's characters and entity letters |
| EncoderFacts.PlainEncodingReadsBack | RichTextLib.js:15-22 | a string, or a value without runs, encodes to HTML that reads back as its text, each `\r\n`, `\r` or `\n` as one newline |
| EncoderFacts.PlainEncodingOnlyBr | RichTextLib.js:15-22 | a string, or a value without runs, is encoded with no markup other than `<br>` |
| EncoderFacts.WrapNesting | RichTextLib.js:35-43 | the tags nest with `<b>` innermost, then `<i>`, `<s>`, `<u>`, and the colour span outermost, each closed in reverse order |
| EncoderFacts.SpanIffShownColor | RichTextLib.js:40-43 | a run gets a colour span exactly when its colour is present, non-empty and not `#000000` |
| EncoderFacts.FragmentReads | RichTextLib.js:26-45 | one run's fragment reads back as the run's text |
| EncoderFacts.EncodingReadsBack | RichTextLib.js:24-48 | the encoding of a value reads back as the texts of its runs, in order, or as its text when it has no runs |
| EncoderFacts.CoveredEncodingReadsText | RichTextLib.js:17-48 | for runs that cover the text, as the spreadsheet reports them, the encoding reads back as the text |
| CodecFacts.DecodeUndoesEscape | RichTextLib.js:59 | decoding escaped text without `&` gives the text back |
| CodecFacts.PassOver | RichTextLib.js:59 | each entity pass over partly escaped text unescapes exactly its own character |
| CodecFacts.BrPassUndoesBreakLines | RichTextLib.js:67 | the projection's first pass turns the encoder's `<br>` back into newlines |
| CodecFacts.PlainRoundTrip | RichTextLib.js:65-71 | the plain text of the encoding of a text without `&` is the text, line breaks as `\n`, less a leading newline |
| RunTokens.EncodingIsTokens | RichTextLib.js:24-48 | the encoding of a value with runs inside a plain text is the rendering of its tokens: for each run, its tags opened outermost first, its characters, its tags closed innermost first |
| HtmlTokens.PlainOfRender | RichTextLib.js:65-71 | rendered tokens project onto their characters: each tag is removed and each character kept |
| HtmlTokens.CharStylesOfTokens | RichTextLib.js:56-130 | for rendered tokens, the decoder's plain text is the tokens' characters and `charStyles` is what scanning the tokens one at a time leaves |
| RunScan.ScanRuns | RichTextLib.js:82-130 | scanning the tokens of the first `k` runs merges each run's tag styles over that run's characters, and leaves the stack empty |
| RunScan.PaintedAt | RichTextLib.js:91-95 | after the runs in order, a character of run `i` holds its initial object with that run's tag styles assigned on, innermost tag first |
| StyledRoundTrip.Styled | RichTextLib.js:146-155 | the runs the decoder can report for a value: some of its runs, in order, each setting a style |
| StyledRoundTrip.EncodingStyles | RichTextLib.js:13-130 | for a faithful value, the decoder's plain text of the encoding is the value's text, and `charStyles` is the row of `{}`s with each run's tags merged over the run's characters, run after run |
| StyledRoundTrip.EncodingPainted | RichTextLib.js:13-130 | after decoding the encoding of a faithful value, the characters of each run share one style object, and that object carries the run's style |
| StyledRoundTrip.RunIsBlock | RichTextLib.js:133-141 | each run of a separable value is a maximal block of equal style objects in the decoded `charStyles`, carrying the run's style |
| StyledRoundTrip.CoalescedPrefix | RichTextLib.js:133-158 | at the end of every run, the coalescing invariant holds with the styled runs among those before it as the runs emitted so far |
| StyledRoundTrip.RoundTripRuns | RichTextLib.js:13-161 | for a faithful value, the decoder reads the encoding back as the value's text, and the runs it coalesces are exactly the value's styled runs |
| StyledRoundTrip.RoundTrip | RichTextLib.js:13-161 | `htmlToRichText(richTextToHtml(v))` returns the text of `v` and exactly its runs that set a style, in order. This holds when the runs cover the text without empty runs, neighbouring runs differ in style, colours are lower-case `#rrggbb` other than `#000000`, and the text has no `<`, `>`, `&` or line break |
| TaskService.Max | TaskService.js:264 | `Math.max` of a non-empty list is one of its elements and is at least every element |
| TaskService.StringToNumber | TaskService.js:263 | `Number(s)`: a blank string is 0, a non-blank string without a digit is NaN (`Infinity` aside, as "## Left out" says), and a negative result comes from a leading `-` |
| TaskService.StrictEquals | TaskService.js:268 | `===` holds exactly for equal cells that are not dates |
| TaskService.LooseEquals | TaskService.js:99 | `==` holds for every pair `===` relates and never for a date; TaskServiceFacts.LooseEqualsNumberReads states that a cell `==` a number reads as that number under `Number` |
| TaskService.GetNextId | TaskService.js:261-265 | 1 with no data rows; otherwise the result exceeds every data row's ID (`Number(…) \|\| 0`) and is one more than one of them |
| TaskService.GetNextNo | TaskService.js:267-272 | 1 when no data row has the status; otherwise the result exceeds every display number of the rows with the status and is one more than one of them |
| TaskService.FirstMatchFrom | TaskService.js:97-105 | a row found from `i` is at or after `i` and its ID matches |
| TaskService.FindTaskRow | TaskService.js:97-105 | the loop skips the header and returns the sheet row of the first data row whose ID `==` the key, with that row; -1 exactly when none matches |
| TaskService.DeleteTask | TaskService.js:185-197 | succeeds exactly when some data row's ID matches; then the first such row is removed and nothing else changes; otherwise the sheet is unchanged |
| TaskService.SaveTask | TaskService.js:87-153 | a task with a truthy ID that matches a row updates the first such row; any other task is appended at `lastRow + 1`. The ID written is `task.id` when truthy, else `getNextId`. The display number is `task.no` when given; otherwise an update keeps the row's number unless the status changes, and a new task gets `getNextNo`. The label falls back to the row's, then `''`; the reported ID is the ID written |
| TaskServiceFacts.NosWithStatusAppend | TaskService.js:268-270 | filtering the rows by status distributes over concatenation |
| TaskServiceFacts.NosWithStatusMembers | TaskService.js:268-270 | the filtered numbers are exactly the display numbers of the rows with that status |
| TaskServiceFacts.GetNextNoIsNextAfterMax | TaskService.js:267-272 | 1 when no data row has the status; otherwise the result exceeds the display number of every row with the status and is one more than one of them |
| TaskServiceFacts.GetNextNoIgnoresOtherStatuses | TaskService.js:267-272 | adding a row of another status anywhere among the data rows leaves the result unchanged |
| TaskServiceFacts.NewIdIsFresh | TaskService.js:107-123 | the ID a new task gets matches no existing row under `==` |
| TaskServiceFacts.ReturnedIdAsWrittenNamesAnotherTask | TaskService.js:152 | as written, a new task saved beside one row with ID 2 is written with ID 3 but reported as 2, the other task's ID |
| TaskServiceFacts.StatusChangeTakesNextNo | TaskService.js:125-133 | an update moved to another status gets a display number after every task already in that status |
| TaskServiceFacts.UnchangedUpdateKeepsRow | TaskService.js:125-141 | an update with no display number and no label that keeps its status writes back the row's own display number and label |
| RichTextFromClient.Clamp | TaskService.js:172-173 | a bound is clamped into `[0, len]` and left alone inside it; a NaN bound stays NaN |
| RichTextFromClient.TextStyleOf | TaskService.js:164-168 | the four flags are copied and the colour is set only when non-empty |
| RichTextFromClient.ApplyRun | TaskService.js:164-176 | a run is applied only as a non-empty range inside the text, only when its bounds are numbers with start below end; a run already inside the text is applied as sent |
| RichTextFromClient.AppliedRunsInText | TaskService.js:171-176 | every applied range is non-empty and inside the text |
| RichTextFromClient.AppliedRunsExactly | TaskService.js:163-178 | a range is applied exactly when some client run makes it |
| RichTextFromClient.BuildRichTextFromData | TaskService.js:158-180 | no data or an empty text gives the empty value; otherwise the text with the applied runs, in order, all within bounds |

## Left out

- Characters are Unicode scalar values. JavaScript counts UTF-16 code units, so offsets and lengths differ for characters outside the Basic Multilingual Plane.
- `toLowerCase` is modelled on ASCII letters only. The case-insensitive regexes match ASCII letters case-insensitively, as JavaScript does without the `u` flag.
- The JavaScript regex engine is not modelled. Each pattern is a hand-written scanner of its own.
- The `SpreadsheetApp` builders, `TextStyle` and `RichTextValue.getRuns()` are the plain datatype `RichText.RichTextValue`. Sheets resolves overlapping `setTextStyle` calls itself; that resolution is not modelled.
- Sheet reads and writes are not modelled. This covers `getValues`, `setValues`, `setRichTextValue`, `deleteRow`, `getLastRow` (a parameter) and the `CONFIG.COLUMNS` positions (the parameter `cols`). `Config.js` is not part of this model.
- `getSS`, `checkAccess`, `getSettings`, `getData`, `updateOrderAndStatus` and `importFromGoogleTasks` are spreadsheet, session and Google Tasks API calls, and are not modelled. Neither are `Code.js` (an HTTP and template wrapper) and `bundler.js` (a build script).
- TaskService.SaveTask: does not model the due-date column, because `new Date(task.dueDate)` parses dates.
- TaskService.SaveTask: does not model which rich-text value is written to the content cell (TaskService.js:146-149). That value is the result of `BuildRichTextFromData` or `HtmlToRichText`. The second argument passed to `htmlToRichText` there is ignored by that function.
- TaskService.StringToNumber: reads only optionally signed decimal integers. Hex, binary and octal literals, fractions, exponents and `Infinity` are read as NaN here.
- TaskService.Cell: numbers are integers; fractional cell values are not modelled.
- TaskService.LooseEquals: a date never equals anything. In JavaScript, a date compared with a string uses the date's string form, and that comparison is not modelled.
- TaskService.SaveTask: takes `task.status` as defined. An `undefined` status, which the `===` of `getNextNo` would match against missing cells, is not modelled.
- RichTextFromClient.ClientRun: bounds are integers or NaN. A fractional bound is not modelled.
- CodecFacts.PlainRoundTrip: holds only for text without `&`. The decoder's entity passes run in order, so an escaped `&amp;lt;` decodes twice (`PlainTextFacts.EntityCascade`).
- CodecFacts.PlainRoundTrip: a leading newline is lost on the way back, because the projection drops it.
- StyledRoundTrip.RoundTrip: holds only for the values it names, because outside them the decoder does not give the same value back:
  - neighbouring runs of equal style come back as one run;
  - an empty run is skipped by the encoder;
  - a colour `parseToHex` rewrites (`#FFF`, `red`) comes back rewritten, and `#000000` is not written at all;
  - `&`, `<` and `>` in the text meet the ordered entity passes (`PlainTextFacts.EntityCascade`), and line breaks come back as `\n` or are dropped at the start.
- EncoderFacts.EncodingReadsBack: assumes a text without `\r` and colours without `>`, `\r` or `\n`. A `\r` becomes a `<br>` that reads back as `\n`. A colour containing `>` would end the span's tag early.
- ColorFacts.ParseToHexFixedPoint: idempotence is proved only for results with no whitespace and no `;`. `ColorFacts.ParseToHexNotAlwaysFixedPoint` shows that it fails otherwise, because the digits after `#` are not validated.
- Decoder.HtmlToRichText: equal style objects are compared structurally, in key order. This matches `JSON.stringify` for the objects the decoder builds from colours that `parseToHex` turns into a string or `null`, and flags that are only ever `true`.
- Decoder.HtmlToRichText: uses the corrected colour lookup of `Color.ParseToHex`, so it departs from the code as written on a colour token `constructor` or `__proto__`. There the source stores a truthy inherited member (the `Object` function, or `Object.prototype`) as the colour. For `<span style="color:constructor" color="red">x</span>` that value suppresses the `color` attribute, `JSON.stringify` drops it, and the source emits no run; the model stores `null`, lets `color="red"` apply and emits a red run.
- Color.HexDigits, Color.HexByte: a channel is an unbounded natural number. The source reads it with `parseInt`, a double, so channels above 2^53 are rounded first: for `rgb(9007199254740993,0,0)` the source's red digits are `20000000000000` where the model's are `20000000000001`. `ColorFacts.RgbUnclamped` only claims that such results are longer than seven characters.
- TaskService.Task: a field is a cell or absent. A `null` cannot be carried: `task.no === undefined` (TaskService.js:126) lets a `null` display number through and writes it, and a `null` label is written as `null` (line 141); the model has no such value.
- RichTextFromClient.ClientRun: always carries a style. A client run without `style` makes the source throw at TaskService.js:165, a failure the model does not have.

## Findings

| source | as written | input that shows it | evidently intended | confidence | as-written member | corrected member |
|---|---|---|---|---|---|---|
| RichTextLib.js:182-186 | `basicColors[c] \|\| null` also finds members inherited from `Object.prototype` | the colour `constructor` (or `__proto__`) | only the nine own keys are colour names; anything else gives `null` | not executed; high | ColorFacts.ParseToHexAsWritten, ColorFacts.ConstructorIsNotAColor | Color.ParseToHex, ColorFacts.NamedColorExact |
| TaskService.js:152 | a new task is reported with ID `data.length`, while `getNextId` (line 123) is what is written | one data row with ID 2: the new task is written with ID 3 and reported as 2, the other task's ID | report the ID that was written | not executed; high | TaskService.ReturnedIdAsWritten, TaskServiceFacts.ReturnedIdAsWrittenNamesAnotherTask | TaskService.SaveTask, TaskServiceFacts.NewIdIsFresh |
