/**
 * The decoder's plain-text projection undoes the encoder on plain text:
 * `<br>` turns back into a newline, `&lt;` and `&gt;` back into `<` and
 * `>`, and nothing else changes, so long as the text holds no `&` (an
 * `&` in the text could spell an entity the decoder's cascade reads twice).
 */
module CodecFacts {
  import opened Wrappers
  import opened JsText
  import opened Patterns
  import opened Encoder
  import opened EncoderFacts
  import opened PlainText

  /** The escape of one character when only `<` (if `lt`) and `>` (if `gt`) are escaped. */
  function EscChar(c: char, lt: bool, gt: bool): string {
    if c == '<' && lt then "&lt;" else if c == '>' && gt then "&gt;" else [c]
  }

  /** `s` with `<` escaped if `lt` and `>` escaped if `gt`: the text between two passes of the decoder. */
  function EscapeSome(s: string, lt: bool, gt: bool): string
    decreases |s|
  {
    if s == [] then [] else EscChar(s[0], lt, gt) + EscapeSome(s[1..], lt, gt)
  }

  lemma {:induction false} EscapeAll(s: string)
    requires '&' !in s
    ensures EscapeHtml(s) == EscapeSome(s, true, true)
    decreases |s|
  {
    EscapeMatchesReference(s);
    EscapeRefIsEscapeSome(s);
  }

  lemma {:induction false} EscapeRefIsEscapeSome(s: string)
    requires '&' !in s
    ensures EscapeRef(s) == EscapeSome(s, true, true)
    decreases |s|
  {
    if s != [] {
      assert s[0] in s;
      assert forall c | c in s[1..] :: c in s;
      EscapeRefIsEscapeSome(s[1..]);
    }
  }

  lemma {:induction false} EscapeNone(s: string)
    ensures EscapeSome(s, false, false) == s
    decreases |s|
  {
    if s != [] {
      EscapeNone(s[1..]);
      assert [s[0]] + s[1..] == s;
    }
  }

  /** One of the four entity passes that can meet an escaped character: the literal and its replacement. */
  predicate EntityPass(lit: string, rep: string) {
    lit == "&nbsp;" || lit == "&amp;" || (lit == "&lt;" && rep == "<") || (lit == "&gt;" && rep == ">")
  }

  /** An escaped entity the pass for `lit` does not match: their second characters differ. */
  lemma {:induction false} EntityMisses(u: string, lit: string, rep: string, y: string)
    requires u == "&lt;" || u == "&gt;"
    requires EntityPass(lit, rep) && lit != u
    ensures ReplaceAll(u + y, Literal(lit), rep) == u + ReplaceAll(y, Literal(lit), rep)
  {
    assert (u + y)[1] == u[1];
    assert lit[1] != u[1];
    assert '&' !in u[1..];
    ReplaceAllNoMatchHead(u, y, lit, rep);
  }

  /** An escaped entity met by its own pass becomes its character. */
  lemma {:induction false} EntityHits(u: string, rep: string, y: string)
    requires EntityPass(u, rep) && (u == "&lt;" || u == "&gt;")
    ensures ReplaceAll(u + y, Literal(u), rep) == rep + ReplaceAll(y, Literal(u), rep)
  {
    assert (u + y)[..|u|] == u;
    ReplaceAllAtMatch(u, y, Literal(u), rep);
  }

  /** What one entity pass does to one escaped character. */
  lemma {:induction false} UnitPass(c: char, lt: bool, gt: bool, lit: string, rep: string, y: string)
    requires c != '&' && EntityPass(lit, rep)
    ensures ReplaceAll(EscChar(c, lt, gt) + y, Literal(lit), rep)
      == EscChar(c, lt && lit != "&lt;", gt && lit != "&gt;") + ReplaceAll(y, Literal(lit), rep)
  {
    var u := EscChar(c, lt, gt);
    if u == "&lt;" || u == "&gt;" {
      if lit == u {
        EntityHits(u, rep, y);
      } else {
        EntityMisses(u, lit, rep, y);
      }
    } else {
      assert u == [c];
      ReplaceAllSkip(u, y, Literal(lit), rep);
    }
  }

  /** An entity pass over partly escaped text unescapes exactly its own character. */
  lemma {:induction false} PassOver(s: string, lt: bool, gt: bool, lit: string, rep: string)
    requires '&' !in s && EntityPass(lit, rep)
    ensures ReplaceAll(EscapeSome(s, lt, gt), Literal(lit), rep) == EscapeSome(s, lt && lit != "&lt;", gt && lit != "&gt;")
    decreases |s|
  {
    if s == [] {
      assert ReplaceAll([], Literal(lit), rep) == [];
    } else {
      assert s[0] in s;
      assert forall c | c in s[1..] :: c in s;
      UnitPass(s[0], lt, gt, lit, rep, EscapeSome(s[1..], lt, gt));
      PassOver(s[1..], lt, gt, lit, rep);
    }
  }

  /** Decoding escaped text without `&` gives the text back. */
  lemma {:induction false} DecodeUndoesEscape(s: string)
    requires '&' !in s
    ensures DecodeEntities(EscapeHtml(s)) == s
  {
    EscapeAll(s);
    PassOver(s, true, true, "&nbsp;", " ");
    PassOver(s, true, true, "&amp;", "&");
    PassOver(s, true, true, "&lt;", "<");
    PassOver(s, false, true, "&gt;", ">");
    EscapeNone(s);
    ReplaceAllWithoutLead(s, Literal("&quot;"), "\"");
  }

  /** `<br>` is a match of the decoder's line-break tag pattern, whatever follows. */
  lemma {:induction false} BrTagMatchesBr(y: string)
    ensures MatchLen(BrTag, "<br>" + y) == Some(4)
  {
    var s := "<br>" + y;
    assert s[..1] == "<";
    assert s[1..][..2] == "br";
    assert s[3] == '>';
    assert s[3..][0] == '>';
    assert Span(s[3..], IsSpace) == 0;
  }

  lemma {:induction false} BrPassStep(u: string, y: string)
    requires u == "<br>" || '<' !in u
    ensures ReplaceAll(u + y, BrTag, "\n") == (if u == "<br>" then "\n" else u) + ReplaceAll(y, BrTag, "\n")
  {
    if u == "<br>" {
      BrTagMatchesBr(y);
      ReplaceAllAtMatch(u, y, BrTag, "\n");
    } else {
      ReplaceAllSkip(u, y, BrTag, "\n");
    }
  }

  /** The first pass over the encoding of `\r\n` and the text after it. */
  lemma {:induction false} BrPassCrLf(r: string)
    requires ReplaceAll(BreakLines(EscapeHtml(r)), BrTag, "\n") == EscapeHtml(NormalizeNewlines(r))
    ensures ReplaceAll(BreakLines(EscapeHtml("\r\n" + r)), BrTag, "\n") == EscapeHtml(NormalizeNewlines("\r\n" + r))
  {
    EncodeCrLf(r);
    NormalizeCrLf(r);
    BrPassStep("<br>", BreakLines(EscapeHtml(r)));
    EscapeCons('\n', NormalizeNewlines(r));
  }

  lemma {:induction false} PieceHasNoLt(c: char)
    ensures '<' !in Piece(c)
  {
    if c == '&' {
      assert Piece(c) == "&amp;";
    } else if c == '<' {
      assert Piece(c) == "&lt;";
    } else if c == '>' {
      assert Piece(c) == "&gt;";
    } else {
      assert Piece(c) == [c];
    }
  }

  /** The first pass over the encoding of a line break that does not start `\r\n`, and the text after it. */
  lemma {:induction false} BrPassBreak(c: char, r: string)
    requires c == '\n' || (c == '\r' && !(r != [] && r[0] == '\n'))
    requires ReplaceAll(BreakLines(EscapeHtml(r)), BrTag, "\n") == EscapeHtml(NormalizeNewlines(r))
    ensures ReplaceAll(BreakLines(EscapeHtml([c] + r)), BrTag, "\n") == EscapeHtml(NormalizeNewlines([c] + r))
  {
    BreakEncodes(c, r);
    BrPassStep("<br>", BreakLines(EscapeHtml(r)));
    BreakNormalizes(c, r);
  }

  lemma {:induction false} BreakEncodes(c: char, r: string)
    requires c == '\n' || (c == '\r' && !(r != [] && r[0] == '\n'))
    ensures BreakLines(EscapeHtml([c] + r)) == "<br>" + BreakLines(EscapeHtml(r))
  {
    EncodeChar(c, r);
  }

  lemma {:induction false} BreakNormalizes(c: char, r: string)
    requires c == '\n' || (c == '\r' && !(r != [] && r[0] == '\n'))
    ensures EscapeHtml(NormalizeNewlines([c] + r)) == "\n" + EscapeHtml(NormalizeNewlines(r))
  {
    NormalizeChar(c, r);
    assert NormalizeNewlines([c] + r) == "\n" + NormalizeNewlines(r);
    EscapeCons('\n', NormalizeNewlines(r));
    assert Piece('\n') == "\n";
  }

  /** The first pass over the encoding of any other character, and the text after it. */
  lemma {:induction false} BrPassPlain(c: char, r: string)
    requires c != '\r' && c != '\n'
    requires ReplaceAll(BreakLines(EscapeHtml(r)), BrTag, "\n") == EscapeHtml(NormalizeNewlines(r))
    ensures ReplaceAll(BreakLines(EscapeHtml([c] + r)), BrTag, "\n") == EscapeHtml(NormalizeNewlines([c] + r))
  {
    EncodeChar(c, r);
    NormalizeChar(c, r);
    EscapeCons(c, NormalizeNewlines(r));
    PieceHasNoLt(c);
    BrPassStep(Piece(c), BreakLines(EscapeHtml(r)));
  }

  lemma {:induction false} EscapeEmpty()
    ensures EscapeHtml([]) == []
  {
    assert ReplaceAll([], Literal("&"), "&amp;") == [];
    assert ReplaceAll([], Literal("<"), "&lt;") == [];
    assert ReplaceAll([], Literal(">"), "&gt;") == [];
  }

  /** The decoder's first pass turns the encoder's `<br>` back into newlines: `\r\n` and `\r` come back as `\n`. */
  lemma {:induction false} BrPassUndoesBreakLines(t: string)
    ensures ReplaceAll(BreakLines(EscapeHtml(t)), BrTag, "\n") == EscapeHtml(NormalizeNewlines(t))
    decreases |t|
  {
    if t == [] {
      EscapeEmpty();
      assert ReplaceAll([], LineBreak, "<br>") == [];
      assert ReplaceAll([], BrTag, "\n") == [];
    } else if StartsWith(t, "\r\n") {
      BrPassUndoesBreakLines(t[2..]);
      assert t == "\r\n" + t[2..];
      BrPassCrLf(t[2..]);
    } else {
      BrPassUndoesBreakLines(t[1..]);
      assert t == [t[0]] + t[1..];
      if |t| >= 2 {
        assert t[..2] == [t[0], t[1]];
        assert t[1..][0] == t[1];
      }
      if t[0] == '\r' || t[0] == '\n' {
        BrPassBreak(t[0], t[1..]);
      } else {
        BrPassPlain(t[0], t[1..]);
      }
    }
  }

  lemma {:induction false} NormalizeKeepsAmpersandOut(t: string)
    requires '&' !in t
    ensures '&' !in NormalizeNewlines(t)
    decreases |t|
  {
    if t != [] {
      assert t[0] in t;
      assert forall c | c in t[1..] :: c in t;
      if StartsWith(t, "\r\n") {
        assert forall c | c in t[2..] :: c in t;
        NormalizeKeepsAmpersandOut(t[2..]);
      } else {
        NormalizeKeepsAmpersandOut(t[1..]);
      }
    }
  }

  /**
   * Round trip of plain text: the decoder's plain text of the encoding of
   * `t` is `t` with its line breaks read as `\n`, less a leading newline,
   * which the decoder drops.
   */
  lemma {:induction false} PlainRoundTrip(t: string)
    requires '&' !in t
    ensures ToPlainText(EncodePlain(t)) == DropLeadingNewline(NormalizeNewlines(t))
  {
    var n := NormalizeNewlines(t);
    BrPassUndoesBreakLines(t);
    EscapeMatchesReference(n);
    EscapeRefChars(n);
    ReplaceAllWithoutLead(EscapeHtml(n), BlockOpenTag, "\n");
    ReplaceAllWithoutLead(EscapeHtml(n), AnyTag, "");
    NormalizeKeepsAmpersandOut(t);
    DecodeUndoesEscape(n);
  }
}
