/**
 * The range-limited editors of the integer types: the clamp bounds each
 * range shape resolves to, and the `lo..=hi` hint printed beside the editor.
 */
module Nums {
  import opened Wrappers
  import opened Labels
  import opened Options

  /** The integer instantiations; `isize` and `usize` are taken as 64 bits wide. */
  datatype IntType = I8 | I16 | I32 | I64 | Isize | U8 | U16 | U32 | U64 | Usize

  /** `T::MIN`. */
  function Min(t: IntType): int {
    match t
    case I8 => -0x80
    case I16 => -0x8000
    case I32 => -0x8000_0000
    case I64 => -0x8000_0000_0000_0000
    case Isize => -0x8000_0000_0000_0000
    case _ => 0
  }

  /** `T::MAX`. */
  function Max(t: IntType): int {
    match t
    case I8 => 0x7F
    case I16 => 0x7FFF
    case I32 => 0x7FFF_FFFF
    case I64 => 0x7FFF_FFFF_FFFF_FFFF
    case Isize => 0x7FFF_FFFF_FFFF_FFFF
    case U8 => 0xFF
    case U16 => 0xFFFF
    case U32 => 0xFFFF_FFFF
    case U64 => 0xFFFF_FFFF_FFFF_FFFF
    case Usize => 0xFFFF_FFFF_FFFF_FFFF
  }

  predicate InType(t: IntType, x: int) {
    Min(t) <= x <= Max(t)
  }

  /** The range argument: `..`, `start..`, `..=end`, `start..=end`. */
  datatype RangeShape = Full | From(start: int) | ToInclusive(end: int) | Inclusive(start: int, end: int)

  /** The bounds a range value of the type can carry. */
  predicate ShapeInType(t: IntType, r: RangeShape) {
    match r
    case Full => true
    case From(s) => InType(t, s)
    case ToInclusive(e) => InType(t, e)
    case Inclusive(s, e) => InType(t, s) && InType(t, e)
  }

  /** Reference meaning of a range: Rust's `contains`. */
  predicate Contains(r: RangeShape, x: int) {
    match r
    case Full => true
    case From(s) => s <= x
    case ToInclusive(e) => x <= e
    case Inclusive(s, e) => s <= x <= e
  }

  datatype Clamp = Clamp(lo: int, hi: int)

  /**
   * The effective clamp range: a missing end is the type's own bound. Over
   * the values of the type, the clamp range holds exactly the values the
   * range contains.
   */
  function ClampOf(t: IntType, r: RangeShape): (c: Clamp)
    requires ShapeInType(t, r)
    ensures InType(t, c.lo) && InType(t, c.hi)
    ensures r.Full? ==> c == Clamp(Min(t), Max(t))
    ensures r.From? ==> c == Clamp(r.start, Max(t))
    ensures r.ToInclusive? ==> c == Clamp(Min(t), r.end)
    ensures r.Inclusive? ==> c == Clamp(r.start, r.end)
    ensures forall x :: InType(t, x) ==> (c.lo <= x <= c.hi <==> Contains(r, x))
  {
    match r
    case Full => Clamp(Min(t), Max(t))
    case From(s) => Clamp(s, Max(t))
    case ToInclusive(e) => Clamp(Min(t), e)
    case Inclusive(s, e) => Clamp(s, e)
  }

  /** `format!("{}..={}", lo, hi)`: the hint names exactly the clamp bounds, so reading it back gives them. */
  function HintText(c: Clamp): (s: string)
    ensures ParseHint(s) == Some(c)
  {
    var a, b := IntToString(c.lo), IntToString(c.hi);
    var s := a + "..=" + b;
    IntToStringRoundTrip(c.lo);
    IntToStringRoundTrip(c.hi);
    assert s == a + ("..=" + b);
    FirstDotOfConcat(a, "..=" + b);
    assert s[..|a|] == a;
    assert s[|a|..|a| + 3] == "..=";
    assert s[|a| + 3..] == b;
    s
  }

  /** What the editor of a number shows: a clamp range when one was given, and the hint text for it. */
  datatype Editor = Editor(clamp: Option<Clamp>, hint: Option<string>)

  /**
   * A bare number is a drag editor with no clamp and no hint; a number
   * bundled with a range is clamped to `ClampOf` and hinted with exactly
   * those bounds.
   */
  function NumberEditor(t: IntType, range: Option<RangeShape>): (e: Editor)
    requires range.Some? ==> ShapeInType(t, range.value)
    ensures range.None? ==> e.clamp.None? && e.hint.None?
    ensures range.Some? ==> e.clamp == Some(ClampOf(t, range.value)) && e.hint.Some?
    ensures range.Some? ==> ParseHint(e.hint.value) == Some(ClampOf(t, range.value))
  {
    match range
    case None => Editor(None, None)
    case Some(r) =>
      var c := ClampOf(t, r);
      Editor(Some(c), Some(HintText(c)))
  }

  /** Index of the first '.' of `s`, or `|s|`. */
  function FirstDot(s: string): (i: nat)
    ensures i <= |s|
    ensures forall j :: 0 <= j < i ==> s[j] != '.'
    ensures i < |s| ==> s[i] == '.'
  {
    if |s| == 0 || s[0] == '.' then 0 else 1 + FirstDot(s[1..])
  }

  /** Reads a hint back: the text before the first `..=` and the text after it. */
  function ParseHint(s: string): Option<Clamp> {
    var i := FirstDot(s);
    if i + 3 <= |s| && s[i..i + 3] == "..=" then Some(Clamp(ParseInt(s[..i]), ParseInt(s[i + 3..]))) else None
  }

  lemma {:induction false} FirstDotOfConcat(a: string, b: string)
    requires forall j :: 0 <= j < |a| ==> a[j] != '.'
    requires |b| > 0 && b[0] == '.'
    ensures FirstDot(a + b) == |a|
    decreases |a|
  {
    if |a| > 0 {
      assert (a + b)[1..] == a[1..] + b;
      FirstDotOfConcat(a[1..], b);
    }
  }

  /**
   * An optional number with a range: the None/Some selector, whose "Some"
   * starts from the integer default 0. The clamped editor and its hint are
   * drawn inside the selector's inner probe, so they appear exactly when the
   * value ends up Some.
   */
  method ProbeOptionNumber(t: IntType, range: RangeShape, value: Option<int>, noneClicked: bool, someClicked: bool,
                           edit: int -> Edited<int>)
    returns (editor: Option<Editor>, r: Option<int>, changed: bool)
    requires ShapeInType(t, range)
    ensures editor.Some? <==> r.Some?
    ensures r.Some? ==> editor == Some(NumberEditor(t, Some(range)))
    ensures SelectorOutcome(value, 0, noneClicked, someClicked, edit, r, changed)
  {
    r, changed := OptionProbeWith(value, 0, noneClicked, someClicked, edit);
    if r.Some? {
      var c := ClampOf(t, range);
      editor := Some(Editor(Some(c), Some(HintText(c))));
    } else {
      editor := None;
    }
  }
}
