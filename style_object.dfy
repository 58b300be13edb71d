/**
 * The plain style objects of `htmlToRichText` (RichTextLib.js:75, 103-126):
 * each starts as `{}` and gains keys by assignment and by `Object.assign`.
 * The decoder compares them through `JSON.stringify`, which writes the keys
 * in insertion order, so the model keeps that order: two valid objects are
 * equal exactly when their serialisations are.
 */
module StyleObject {
  import opened Wrappers
  import opened RichText

  datatype Key = ColorKey | BoldKey | ItalicKey | StrikethroughKey | UnderlineKey

  /**
   * A style object: its keys in insertion order and their values. A flag
   * is only ever set to `true`; the colour may be set to `null`
   * (`Some(None)`) when `parseToHex` refuses a token.
   */
  datatype StyleObj = StyleObj(
    keys: seq<Key>,
    color: Option<Option<string>>,
    bold: bool,
    italic: bool,
    strikethrough: bool,
    underline: bool)

  /** `keys` lists each key once, exactly the keys that have been set. */
  predicate Valid(o: StyleObj) {
    && (forall i, j | 0 <= i < j < |o.keys| :: o.keys[i] != o.keys[j])
    && (ColorKey in o.keys <==> o.color.Some?)
    && (BoldKey in o.keys <==> o.bold)
    && (ItalicKey in o.keys <==> o.italic)
    && (StrikethroughKey in o.keys <==> o.strikethrough)
    && (UnderlineKey in o.keys <==> o.underline)
  }

  /** `{}`. */
  const Empty := StyleObj([], None, false, false, false, false)

  /** A new key goes last; an existing key keeps its place. */
  function AddKey(keys: seq<Key>, k: Key): seq<Key> {
    if k in keys then keys else keys + [k]
  }

  /** `o.color = c`. */
  function SetColor(o: StyleObj, c: Option<string>): (r: StyleObj)
    ensures Valid(o) ==> Valid(r)
  {
    o.(keys := AddKey(o.keys, ColorKey), color := Some(c))
  }

  /** `o.<flag> = true` for one of the four flag keys. */
  function SetFlag(o: StyleObj, k: Key): (r: StyleObj)
    requires k != ColorKey
    ensures Valid(o) ==> Valid(r)
  {
    match k
    case BoldKey => o.(keys := AddKey(o.keys, k), bold := true)
    case ItalicKey => o.(keys := AddKey(o.keys, k), italic := true)
    case StrikethroughKey => o.(keys := AddKey(o.keys, k), strikethrough := true)
    case UnderlineKey => o.(keys := AddKey(o.keys, k), underline := true)
  }

  /** Copies the property `k` of `source`, if it has one, onto `target`. */
  function CopyKey(target: StyleObj, source: StyleObj, k: Key): (r: StyleObj)
    ensures Valid(target) ==> Valid(r)
  {
    match k
    case ColorKey => if source.color.Some? then SetColor(target, source.color.value) else target
    case BoldKey => if source.bold then SetFlag(target, k) else target
    case ItalicKey => if source.italic then SetFlag(target, k) else target
    case StrikethroughKey => if source.strikethrough then SetFlag(target, k) else target
    case UnderlineKey => if source.underline then SetFlag(target, k) else target
  }

  function CopyKeys(target: StyleObj, source: StyleObj, ks: seq<Key>): (r: StyleObj)
    ensures Valid(target) ==> Valid(r)
    decreases |ks|
  {
    if ks == [] then target else CopyKeys(CopyKey(target, source, ks[0]), source, ks[1..])
  }

  /** `Object.assign(target, source)`: the keys of `source`, in its order. */
  function Assign(target: StyleObj, source: StyleObj): (r: StyleObj)
    ensures Valid(target) ==> Valid(r)
  {
    CopyKeys(target, source, source.keys)
  }

  /** `!!o.color`: a colour key holding a non-empty string. */
  predicate HasTruthyColor(o: StyleObj) {
    o.color.Some? && o.color.value.Some? && o.color.value.value != ""
  }

  /**
   * The style handed to `setTextStyle` for a run whose characters carry `o`
   * (RichTextLib.js:142-150): each truthy property of the object.
   */
  function ToStyle(o: StyleObj): (s: Style)
    ensures HasStyle(s) <==> HasTruthyColor(o) || o.bold || o.italic || o.strikethrough || o.underline
  {
    Style(o.bold, o.italic, o.underline, o.strikethrough,
      if HasTruthyColor(o) then o.color.value else None)
  }
}

/** What `Object.assign` does to a character's style object. */
module StyleObjectFacts {
  import opened Wrappers
  import opened StyleObject

  /** Copying one key sets that property from the source and leaves the others. */
  lemma {:induction false} CopyKeyValues(t: StyleObj, s: StyleObj, k: Key)
    ensures var r := CopyKey(t, s, k);
      && r.color == (if k == ColorKey && s.color.Some? then s.color else t.color)
      && r.bold == (t.bold || (k == BoldKey && s.bold))
      && r.italic == (t.italic || (k == ItalicKey && s.italic))
      && r.strikethrough == (t.strikethrough || (k == StrikethroughKey && s.strikethrough))
      && r.underline == (t.underline || (k == UnderlineKey && s.underline))
  {
  }

  lemma {:induction false} CopyKeysValues(t: StyleObj, s: StyleObj, ks: seq<Key>)
    ensures var r := CopyKeys(t, s, ks);
      && r.color == (if ColorKey in ks && s.color.Some? then s.color else t.color)
      && r.bold == (t.bold || (BoldKey in ks && s.bold))
      && r.italic == (t.italic || (ItalicKey in ks && s.italic))
      && r.strikethrough == (t.strikethrough || (StrikethroughKey in ks && s.strikethrough))
      && r.underline == (t.underline || (UnderlineKey in ks && s.underline))
    decreases |ks|
  {
    if ks != [] {
      CopyKeyValues(t, s, ks[0]);
      CopyKeysValues(CopyKey(t, s, ks[0]), s, ks[1..]);
      assert forall k :: k in ks <==> k == ks[0] || k in ks[1..];
    }
  }

  /**
   * `Object.assign` overwrites: every property the source has replaces the
   * target's, a colour `null` included, and the target keeps the rest.
   */
  lemma {:induction false} AssignValues(t: StyleObj, s: StyleObj)
    requires Valid(s)
    ensures var r := Assign(t, s);
      && r.color == (if s.color.Some? then s.color else t.color)
      && r.bold == (t.bold || s.bold)
      && r.italic == (t.italic || s.italic)
      && r.strikethrough == (t.strikethrough || s.strikethrough)
      && r.underline == (t.underline || s.underline)
  {
    CopyKeysValues(t, s, s.keys);
  }

  lemma {:induction false} CopyKeysOrder(t: StyleObj, s: StyleObj, ks: seq<Key>)
    ensures var r := CopyKeys(t, s, ks);
      |t.keys| <= |r.keys| && r.keys[..|t.keys|] == t.keys
      && forall k :: k in r.keys ==> k in t.keys || k in ks
    decreases |ks|
  {
    if ks != [] {
      var t' := CopyKey(t, s, ks[0]);
      assert |t.keys| <= |t'.keys| && t'.keys[..|t.keys|] == t.keys;
      CopyKeysOrder(t', s, ks[1..]);
      var r := CopyKeys(t, s, ks);
      assert r.keys[..|t.keys|] == r.keys[..|t'.keys|][..|t.keys|];
    }
  }

  /**
   * Keys already present keep their place, as in `JSON.stringify`'s
   * output; new keys come after them, and only keys of the source are added.
   */
  lemma {:induction false} AssignKeyOrder(t: StyleObj, s: StyleObj)
    ensures var r := Assign(t, s);
      |t.keys| <= |r.keys| && r.keys[..|t.keys|] == t.keys
      && forall k :: k in r.keys ==> k in t.keys || k in s.keys
  {
    CopyKeysOrder(t, s, s.keys);
  }

  /**
   * When two tags that both set the colour are merged into one character,
   * the one merged second (the tag that closes later) decides the colour.
   */
  lemma {:induction false} LaterAssignWins(t: StyleObj, first: StyleObj, second: StyleObj)
    requires Valid(first) && Valid(second) && second.color.Some?
    ensures Assign(Assign(t, first), second).color == second.color
  {
    AssignValues(Assign(t, first), second);
  }
}
