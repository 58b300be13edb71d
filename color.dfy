/**
 * Colour normalisation, `parseToHex` (RichTextLib.js:168-187): a colour
 * written as `#rgb`, `#rrggbb`, `#rrggbbaa`, `rgb(r, g, b)` or one of nine
 * names becomes a `#rrggbb` string, or `null` (here `None`).
 */
module Color {
  import opened Wrappers
  import opened JsText

  /** No line terminator occurs in `s`: `.*$` can reach the end of the input from here. */
  predicate NoLineTerminator(s: string) {
    forall k | 0 <= k < |s| :: !IsLineTerminator(s[k])
  }

  /** `/[;].*$/` matches at index `i` of `s`. */
  predicate CutsAt(s: string, i: nat) {
    i < |s| && s[i] == ';' && NoLineTerminator(s[i + 1..])
  }

  /** The leftmost index at which `/[;].*$/` matches. */
  function SemicolonTail(s: string): (r: Option<nat>)
    ensures r.Some? ==> CutsAt(s, r.value) && forall k | 0 <= k < r.value :: !CutsAt(s, k)
    ensures r.None? ==> forall k | 0 <= k < |s| :: !CutsAt(s, k)
  {
    if s == [] then None
    else if s[0] == ';' && NoLineTerminator(s[1..]) then Some(0)
    else
      CutsAtShift(s);
      match SemicolonTail(s[1..])
      case Some(i) => Some(i + 1)
      case None => None
  }

  lemma {:induction false} CutsAtShift(s: string)
    requires s != []
    ensures forall k | 0 < k < |s| :: CutsAt(s, k) == CutsAt(s[1..], k - 1)
  {
    forall k | 0 < k < |s| ensures CutsAt(s, k) == CutsAt(s[1..], k - 1) {
      assert s[k + 1..] == s[1..][k..];
    }
  }

  /** `s.replace(/[;].*$/, "")`. */
  function CutAtSemicolon(s: string): (r: string)
    ensures |r| <= |s| && r == s[..|r|]
  {
    match SemicolonTail(s)
    case Some(i) => s[..i]
    case None => s
  }

  /** The token that `parseToHex` classifies: trimmed, lower-cased, cut at `;` (RichTextLib.js:170). */
  function Canonical(color: string): string {
    CutAtSemicolon(Lower(Trim(color)))
  }

  /** `\s*` from index `i`. */
  function SkipSpaces(s: string, i: nat): (j: nat)
    requires i <= |s|
    ensures i <= j <= |s|
  {
    i + Span(s[i..], IsSpace)
  }

  /** `\s*(\d+)\s*` from index `i`: the channel's value and the index after it. */
  function Channel(s: string, i: nat): (r: Option<(nat, nat)>)
    requires i <= |s|
    ensures r.Some? ==> i < r.value.1 <= |s|
  {
    var a := SkipSpaces(s, i);
    var n := Span(s[a..], IsDigit);
    if n == 0 then None
    else
      assert forall k | 0 <= k < n :: s[a..a + n][k] == s[a..][k];
      Some((DecimalValue(s[a..a + n]), SkipSpaces(s, a + n)))
  }

  /** A character `c` at index `i`: the index after it. */
  function Expect(s: string, i: nat, c: char): (r: Option<nat>)
    ensures r.Some? ==> r.value == i + 1 <= |s|
  {
    if i < |s| && s[i] == c then Some(i + 1) else None
  }

  /** `rgb\s*\(\s*(\d+)\s*,\s*(\d+)\s*,\s*(\d+)\s*\)` at the start of `s`. */
  function RgbAt(s: string): Option<(nat, nat, nat)> {
    if !StartsWithCI(s, "rgb") then None
    else match Expect(s, SkipSpaces(s, 3), '(')
      case None => None
      case Some(i) => match Channel(s, i)
        case None => None
        case Some(r) => match Expect(s, r.1, ',')
          case None => None
          case Some(j) => match Channel(s, j)
            case None => None
            case Some(g) => match Expect(s, g.1, ',')
              case None => None
              case Some(k) => match Channel(s, k)
                case None => None
                case Some(b) => match Expect(s, b.1, ')')
                  case None => None
                  case Some(_) => Some((r.0, g.0, b.0))
  }

  /** The lower-case hexadecimal digit for `d`. */
  function HexChar(d: nat): char
    requires d < 16
  {
    if d < 10 then ('0' as int + d) as char else ('a' as int + d - 10) as char
  }

  /** The value of a lower-case hexadecimal digit. */
  function HexValue(c: char): nat {
    if '0' <= c <= '9' then c as int - '0' as int
    else if 'a' <= c <= 'f' then c as int - 'a' as int + 10
    else 0
  }

  predicate IsLowerHex(c: char) { '0' <= c <= '9' || 'a' <= c <= 'f' }

  /** `n.toString(16)`. */
  function HexDigits(n: nat): (h: string)
    ensures 1 <= |h|
    ensures forall k | 0 <= k < |h| :: IsLowerHex(h[k])
    ensures |h| == 1 <==> n < 16
  {
    if n < 16 then [HexChar(n)] else HexDigits(n / 16) + [HexChar(n % 16)]
  }

  /** `n.toString(16).padStart(2, '0')`. */
  function HexByte(n: nat): (h: string)
    ensures 2 <= |h|
    ensures forall k | 0 <= k < |h| :: IsLowerHex(h[k])
  {
    var h := HexDigits(n);
    if |h| < 2 then "0" + h else h
  }

  /** The table `basicColors` (RichTextLib.js:182-185). */
  const BasicColors: map<string, string> := map[
    "red" := "#ff0000", "blue" := "#0000ff", "green" := "#188038",
    "black" := "#000000", "white" := "#ffffff", "gray" := "#5f6368",
    "purple" := "#800080", "orange" := "#c26401", "pink" := "#d01884"]

  /** `basicColors[c] || null`, reading only the table's own keys (see `NamedColorAsWritten`). */
  function NamedColor(c: string): (r: Option<string>)
    ensures r.Some? ==> |r.value| == 7 && r.value[0] == '#'
  {
    if c in BasicColors then Some(BasicColors[c]) else None
  }

  /** The `#` forms (RichTextLib.js:171-174): `#rgb` doubles each digit, `#rrggbb` and `#rrggbbaa` keep seven characters. */
  function HashForm(c: string): (r: Option<string>)
    requires StartsWith(c, "#")
    ensures r.Some? ==> |r.value| == 7 && r.value[0] == '#'
  {
    if |c| == 4 then Some(['#', c[1], c[1], c[2], c[2], c[3], c[3]])
    else if |c| == 7 || |c| == 9 then Some(c[..7])
    else None
  }

  /** The `rgb()` form (RichTextLib.js:177-180): each channel as at least two hexadecimal digits. */
  function RgbForm(r: nat, g: nat, b: nat): (h: string)
    ensures 7 <= |h| && h[0] == '#'
  {
    "#" + HexByte(r) + HexByte(g) + HexByte(b)
  }

  /** How `parseToHex` classifies its canonical token. */
  function Classify(c: string): (r: Option<string>)
    ensures r.Some? ==> 7 <= |r.value| && r.value[0] == '#'
  {
    if StartsWith(c, "#") then HashForm(c)
    else match Search(c, RgbAt)
      case Some(rgb) => Some(RgbForm(rgb.0, rgb.1, rgb.2))
      case None => NamedColor(c)
  }

  /** `parseToHex`. */
  function ParseToHex(color: Option<string>): (r: Option<string>)
    ensures color.None? || color == Some("") ==> r.None?
    ensures r.Some? ==> 7 <= |r.value| && r.value[0] == '#'
  {
    if color.None? || color.value == "" then None else Classify(Canonical(color.value))
  }
}

/** What `parseToHex` promises, proved about the model. */
module ColorFacts {
  import opened Wrappers
  import opened JsText
  import opened Color

  /** The two hexadecimal digits at `i` and `i + 1` read back as a number. */
  function HexPair(h: string, i: nat): nat
    requires i + 1 < |h|
  {
    16 * HexValue(h[i]) + HexValue(h[i + 1])
  }

  lemma {:induction false} HexValueOfChar(d: nat)
    requires d < 16
    ensures HexValue(HexChar(d)) == d
  {
  }

  /** A channel in 0..255 becomes exactly two lower-case digits that read back as the channel. */
  lemma {:induction false} HexByteRoundTrip(n: nat)
    requires n < 256
    ensures |HexByte(n)| == 2 && HexPair(HexByte(n), 0) == n
  {
    if n < 16 {
      HexValueOfChar(n);
      assert HexByte(n) == ['0', HexChar(n)];
    } else {
      HexValueOfChar(n / 16);
      HexValueOfChar(n % 16);
      assert HexDigits(n / 16) == [HexChar(n / 16)];
      assert HexByte(n) == [HexChar(n / 16), HexChar(n % 16)];
    }
  }

  /** A channel above 255 is not clamped: it takes three or more digits. */
  lemma {:induction false} HexByteUnclamped(n: nat)
    requires 255 < n
    ensures 3 <= |HexByte(n)|
  {
    assert 16 <= n / 16;
    assert HexDigits(n) == HexDigits(n / 16) + [HexChar(n % 16)];
  }

  /** The three channels of an `rgb()` result, each read back from its two digits. */
  lemma {:induction false} RgbFormRoundTrip(r: nat, g: nat, b: nat)
    requires r < 256 && g < 256 && b < 256
    ensures var h := RgbForm(r, g, b);
      |h| == 7 && h[0] == '#' && (forall k | 1 <= k < 7 :: IsLowerHex(h[k]))
      && HexPair(h, 1) == r && HexPair(h, 3) == g && HexPair(h, 5) == b
  {
    HexByteRoundTrip(r);
    HexByteRoundTrip(g);
    HexByteRoundTrip(b);
    var h := RgbForm(r, g, b);
    assert h == "#" + HexByte(r) + HexByte(g) + HexByte(b);
    assert h[1] == HexByte(r)[0] && h[2] == HexByte(r)[1];
    assert h[3] == HexByte(g)[0] && h[4] == HexByte(g)[1];
    assert h[5] == HexByte(b)[0] && h[6] == HexByte(b)[1];
  }

  /**
   * `rgb(r, g, b)` with every channel in 0..255 gives `#` and six
   * lower-case digits, two per channel, each pair reading back as its
   * channel (RichTextLib.js:175-181).
   */
  lemma {:induction false} RgbRoundTrip(color: string, r: nat, g: nat, b: nat)
    requires color != ""
    requires !StartsWith(Canonical(color), "#") && Search(Canonical(color), RgbAt) == Some((r, g, b))
    requires r < 256 && g < 256 && b < 256
    ensures ParseToHex(Some(color)) == Some(RgbForm(r, g, b))
    ensures var h := RgbForm(r, g, b);
      |h| == 7 && h[0] == '#' && (forall k | 1 <= k < 7 :: IsLowerHex(h[k]))
      && HexPair(h, 1) == r && HexPair(h, 3) == g && HexPair(h, 5) == b
  {
    RgbFormRoundTrip(r, g, b);
  }

  /** A channel above 255 makes the result longer than seven characters (no clamping). */
  lemma {:induction false} RgbUnclamped(color: string, r: nat, g: nat, b: nat)
    requires color != ""
    requires !StartsWith(Canonical(color), "#") && Search(Canonical(color), RgbAt) == Some((r, g, b))
    requires 255 < r || 255 < g || 255 < b
    ensures ParseToHex(Some(color)) == Some(RgbForm(r, g, b)) && 7 < |RgbForm(r, g, b)|
  {
    if 255 < r { HexByteUnclamped(r); }
    if 255 < g { HexByteUnclamped(g); }
    if 255 < b { HexByteUnclamped(b); }
  }

  /**
   * A token that is neither a `#` form nor holds an `rgb(...)` is looked up
   * in `basicColors`: one of the nine names gives its entry, any other
   * token gives `null` (RichTextLib.js:182-186).
   */
  lemma {:induction false} NamedPath(color: string)
    requires color != ""
    requires !StartsWith(Canonical(color), "#") && Search(Canonical(color), RgbAt).None?
    ensures ParseToHex(Some(color)) == NamedColor(Canonical(color))
    ensures Canonical(color) in BasicColors ==> ParseToHex(Some(color)) == Some(BasicColors[Canonical(color)])
    ensures Canonical(color) !in BasicColors ==> ParseToHex(Some(color)).None?
  {
  }

  /**
   * A `#` token is accepted exactly at lengths 4, 7 and 9; the result has
   * seven characters, digit `k` taken from position `(k + 1) / 2` of a
   * short form and from position `k` otherwise, with no check that the
   * digits are hexadecimal (RichTextLib.js:171-174).
   */
  lemma {:induction false} HashFormShape(color: string)
    requires color != "" && StartsWith(Canonical(color), "#")
    ensures var c := Canonical(color);
      var r := ParseToHex(Some(color));
      (r.Some? <==> |c| == 4 || |c| == 7 || |c| == 9)
      && (r.Some? ==>
            |r.value| == 7 && r.value[0] == '#'
            && forall k | 1 <= k < 7 :: r.value[k] == c[if |c| == 4 then (k + 1) / 2 else k])
  {
  }

  /** A name is recognised exactly when it is one of the nine keys, and maps to seven lower-case hex characters. */
  lemma {:induction false} NamedColorExact(c: string)
    ensures NamedColor(c).Some? <==> c in {"red", "blue", "green", "black", "white", "gray", "purple", "orange", "pink"}
    ensures NamedColor(c).Some? ==> var h := NamedColor(c).value;
      |h| == 7 && h[0] == '#' && forall k | 1 <= k < 7 :: IsLowerHex(h[k])
  {
  }

  lemma {:induction false} LowerCharIdempotent(c: char)
    ensures LowerChar(LowerChar(c)) == LowerChar(c)
  {
  }

  predicate IsLowerCase(s: string) {
    forall k | 0 <= k < |s| :: LowerChar(s[k]) == s[k]
  }

  /** The canonical token is lower case. */
  lemma {:induction false} CanonicalLowerCase(color: string)
    ensures IsLowerCase(Canonical(color))
  {
    var t := Lower(Trim(color));
    var c := Canonical(color);
    assert c == t[..|c|];
    forall k | 0 <= k < |c| ensures LowerChar(c[k]) == c[k] {
      LowerCharIdempotent(Trim(color)[k]);
    }
  }

  lemma {:induction false} ClassifyLowerCase(c: string)
    requires IsLowerCase(c)
    ensures Classify(c).Some? ==> IsLowerCase(Classify(c).value)
  {
    if !StartsWith(c, "#") {
      match Search(c, RgbAt)
      case Some(rgb) =>
        var h := RgbForm(rgb.0, rgb.1, rgb.2);
        assert forall k | 0 <= k < |h| :: IsLowerHex(h[k]) || h[k] == '#';
      case None =>
        NamedColorExact(c);
    }
  }

  /** Every character of a result is lower case. */
  lemma {:induction false} ParseToHexLowerCase(color: Option<string>)
    ensures ParseToHex(color).Some? ==> IsLowerCase(ParseToHex(color).value)
  {
    if color.Some? && color.value != "" {
      CanonicalLowerCase(color.value);
      ClassifyLowerCase(Canonical(color.value));
    }
  }

  lemma {:induction false} LowerOfLowerCase(s: string)
    requires IsLowerCase(s)
    ensures Lower(s) == s
  {
  }

  lemma {:induction false} NoSemicolonNoCut(s: string)
    requires ';' !in s
    ensures CutAtSemicolon(s) == s
  {
  }

  /** A token that is already trimmed, lower case and free of `;` is its own canonical form. */
  lemma {:induction false} CanonicalOfClean(s: string)
    requires s != [] && !IsSpace(s[0]) && !IsSpace(s[|s| - 1])
    requires IsLowerCase(s) && ';' !in s
    ensures Canonical(s) == s
  {
    assert Span(s, IsSpace) == 0;
    assert Trim(s) == s;
    LowerOfLowerCase(s);
    NoSemicolonNoCut(s);
  }

  /**
   * Idempotence: a seven-character result with no whitespace and no `;`
   * (in particular `#` and six hex digits) is a fixed point.
   */
  lemma {:induction false} ParseToHexFixedPoint(color: Option<string>)
    requires ParseToHex(color).Some? && |ParseToHex(color).value| == 7
    requires forall k | 0 <= k < 7 :: !IsSpace(ParseToHex(color).value[k]) && ParseToHex(color).value[k] != ';'
    ensures ParseToHex(Some(ParseToHex(color).value)) == ParseToHex(color)
  {
    var h := ParseToHex(color).value;
    ParseToHexLowerCase(color);
    CanonicalOfClean(h);
    assert h[..7] == h;
  }

  /**
   * Without that condition idempotence fails, because the digits are not
   * checked: a nine-character token whose seventh character is whitespace
   * (`#abcde  f`, say) gives a seven-character result ending in that
   * whitespace, which the next call trims to six characters and refuses.
   */
  lemma {:induction false} ParseToHexNotAlwaysFixedPoint(x: string)
    requires |x| == 9 && x[0] == '#' && IsSpace(x[6]) && !IsSpace(x[5]) && !IsSpace(x[8])
    requires IsLowerCase(x) && ';' !in x
    ensures ParseToHex(Some(x)) == Some(x[..7])
    ensures ParseToHex(Some(x[..7])).None?
  {
    CanonicalOfClean(x);
    var y := x[..7];
    assert Span(y, IsSpace) == 0;
    assert y[0..] == y;
    assert TrimEnd(y) == TrimEnd(y[..6]) == y[..6];
    assert IsLowerCase(y[..6]);
    LowerOfLowerCase(y[..6]);
    assert ';' !in y[..6] by {
      assert forall c | c in y[..6] :: c in x;
    }
    NoSemicolonNoCut(y[..6]);
    assert Canonical(y) == y[..6];
  }

  /** A value that `basicColors[c] || null` can produce. */
  datatype JsValue = Null | Str(s: string) | ObjectConstructor | ObjectPrototype

  /**
   * `basicColors[c] || null` as written (RichTextLib.js:182-186): a lookup
   * on an object literal also finds the members it inherits from
   * `Object.prototype`. Of those, only `constructor` and `__proto__` are
   * spelled in lower case, so only they can be reached after `toLowerCase`.
   */
  function NamedColorAsWritten(c: string): JsValue {
    if c in BasicColors then Str(BasicColors[c])
    else if c == "constructor" then ObjectConstructor
    else if c == "__proto__" then ObjectPrototype
    else Null
  }

  /** `parseToHex` as written, with the inherited lookup. */
  function ParseToHexAsWritten(color: Option<string>): JsValue {
    if color.None? || color.value == "" then Null
    else
      var c := Canonical(color.value);
      if !StartsWith(c, "#") && Search(c, RgbAt).None? then NamedColorAsWritten(c)
      else match ParseToHex(color)
        case Some(h) => Str(h)
        case None => Null
  }

  /** A token without the letter `g` has no `rgb(...)` in it. */
  lemma {:induction false} NoRgbWithoutG(c: string)
    requires 'g' !in c && 'G' !in c
    ensures Search(c, RgbAt).None?
  {
    if c != [] {
      assert !StartsWithCI(c, "rgb") by {
        if |c| >= 3 {
          assert c[1] in c;
          assert Lower(c[..3])[1] == LowerChar(c[1]) != 'g';
        }
      }
      assert forall ch | ch in c[1..] :: ch in c;
      NoRgbWithoutG(c[1..]);
    } else {
      assert !StartsWithCI(c, "rgb");
    }
  }

  /**
   * As written, a colour whose canonical token is `constructor` (the
   * token itself, or ` Constructor `) is neither `null` nor a string: it
   * is the `Object` function. The corrected lookup gives `null`.
   */
  lemma {:induction false} ConstructorIsNotAColor(color: string)
    requires Canonical(color) == "constructor"
    ensures ParseToHexAsWritten(Some(color)) == ObjectConstructor
    ensures ParseToHex(Some(color)).None?
  {
    assert color != "";
    ConstructorToken(Canonical(color));
  }

  /** The token `constructor` holds no `rgb(...)`, does not start with `#` and is not a basic colour. */
  lemma {:induction false} ConstructorToken(c: string)
    requires c == "constructor"
    ensures !StartsWith(c, "#") && Search(c, RgbAt).None?
    ensures c !in BasicColors
  {
    assert c[0] == 'c';
    NoRgbWithoutG(c);
  }

  /** Everywhere else the lookup of own keys agrees with the code as written. */
  lemma {:induction false} AsWrittenAgreesOnOtherTokens(color: Option<string>)
    requires color.Some? ==> Canonical(color.value) !in {"constructor", "__proto__"}
    ensures ParseToHexAsWritten(color) == match ParseToHex(color) case Some(h) => Str(h) case None => Null
  {
  }
}
