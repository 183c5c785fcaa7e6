/**
 * `#[derive(EguiProbe)]`: from the parsed attributes of a type, its fields
 * and its variants, the records the generated `iterate_inner` hands to the
 * callback (label, probe kind, binding index), or the diagnostic the macro
 * reports. The runtime variant switch of the generated `probe` is the method
 * at the end.
 */
module Derive {
  import opened Wrappers
  import opened Styles

  datatype RenameCase = SnakeCase | CamelCase | PascalCase | ScreamingSnakeCase | UpperSnakeCase | KebabCase | TrainCase

  /** `RenameCase::rename`, i.e. case conversion of an identifier, which the model does not interpret. */
  type Rename = (RenameCase, string) -> string

  /** The probe-kind attributes of a field; the expressions are kept as their source text. */
  datatype FieldProbeKind =
    | Range(rangeExpr: string)
    | With(withExpr: string)
    | ProbeAs(asExpr: string)
    | Multiline
    | ToggleSwitch
    | Frozen
    | Rgb
    | Rgba
    | RgbaPremultiplied
    | RgbaUnmultiplied

  datatype FieldAttributes = FieldAttributes(skip: bool, name: Option<string>, kind: Option<FieldProbeKind>)

  /** A field: its identifier (None in a tuple struct or tuple variant) and its attributes. */
  datatype Field = Field(ident: Option<string>, attrs: FieldAttributes)

  datatype VariantAttributes = VariantAttributes(name: Option<string>, transparent: bool)

  datatype Variant = Variant(ident: string, fields: seq<Field>, attrs: VariantAttributes)

  datatype TagsKind = TagsInlined | TagsComboBox

  /** Type-level attributes; a `where` clause only extends the impl's bounds and is not modelled. */
  datatype TypeAttributes = TypeAttributes(renameAll: Option<RenameCase>, transparent: bool, tags: Option<TagsKind>)

  datatype Data = Struct(fields: seq<Field>) | Enum(variants: seq<Variant>) | Union

  datatype DeriveInput = DeriveInput(ident: string, attrs: TypeAttributes, data: Data)

  /** What a field's probe expression is: the binding `___idx` of its original position, wrapped per kind. */
  datatype Probe = Probe(binding: nat, kind: Option<FieldProbeKind>)

  /** One `_f(name, _ui, probe)` call of a generated `iterate_inner`. */
  datatype Record = Record(name: string, probe: Probe)

  /** A generated `iterate_inner` arm: forward to one field, or one record per kept field. */
  datatype Inner = Forward(field: Probe) | Records(records: seq<Record>)

  /** Per variant: its selector label, its inline probe (transparent variants only), its inner records. */
  datatype VariantImpl = VariantImpl(title: string, inline: Option<Probe>, inner: Inner)

  /** Where the enum's selector style comes from: the runtime `Style`, or fixed by `tags`. */
  datatype StyleChoice = FromStyle | Fixed(style: VariantsStyle)

  datatype Impl =
    | TransparentStruct(field: Probe)
    | RecordStruct(typeName: string, records: seq<Record>)
    | EnumImpl(style: StyleChoice, variants: seq<VariantImpl>)

  const NamedSkipError := "Cannot name skipped field"
  const TransparentVariantError := "Transparent variant must have exactly one non-skipped field"
  const TransparentStructError := "Transparent struct must have exactly one non-skipped field"
  const TagsOnStructError := "Tags may be specified only for enums"
  const UnionError := "EguiProbe can only be derived for structs and enums"

  function KindKeyword(k: FieldProbeKind): string {
    match k
    case With(_) => "with"
    case ProbeAs(_) => "as"
    case Range(_) => "range"
    case Multiline => "multiline"
    case ToggleSwitch => "toggle_switch"
    case Frozen => "frozen"
    case Rgb => "rgb"
    case Rgba => "rgba"
    case RgbaPremultiplied => "rgba_premultiplied"
    case RgbaUnmultiplied => "rgba_unmultiplied"
  }

  function SkippedKindError(k: FieldProbeKind): string {
    "Cannot use `" + KindKeyword(k) + "` attribute for skipped field"
  }

  /**
   * `make_name`: an explicit name wins; otherwise the identifier, renamed
   * when the type asks for it; an unnamed field without a name gets "".
   */
  function MakeName(name: Option<string>, ident: Option<string>, rc: Option<RenameCase>, rename: Rename): (r: string)
    ensures name.Some? ==> r == name.value
    ensures name.None? && ident.None? ==> r == ""
    ensures name.None? && ident.Some? && rc.None? ==> r == ident.value
    ensures name.None? && ident.Some? && rc.Some? ==> r == rename(rc.value, ident.value)
  {
    match name
    case Some(n) => n
    case None =>
      match ident
      case None => ""
      case Some(i) => if rc.Some? then rename(rc.value, i) else i
  }

  /** The diagnostic a field draws: a skipped field may carry neither a name nor a probe kind. */
  function FieldError(f: Field): (e: Option<string>)
    ensures !f.attrs.skip ==> e.None?
    ensures f.attrs.skip && f.attrs.name.Some? ==> e == Some(NamedSkipError)
    ensures f.attrs.skip && f.attrs.name.None? && f.attrs.kind.Some? ==> e == Some(SkippedKindError(f.attrs.kind.value))
    ensures f.attrs.skip && f.attrs.name.None? && f.attrs.kind.None? ==> e.None?
  {
    if !f.attrs.skip then None
    else if f.attrs.name.Some? then Some(NamedSkipError)
    else if f.attrs.kind.Some? then Some(SkippedKindError(f.attrs.kind.value))
    else None
  }

  /** `field_name`: the diagnostic, nothing for a skipped field, or its label. */
  function FieldName(f: Field, rc: Option<RenameCase>, rename: Rename): (r: Result<Option<string>, string>)
    ensures FieldError(f).Some? ==> r == Err(FieldError(f).value)
    ensures FieldError(f).None? && f.attrs.skip ==> r == Ok(None)
    ensures !f.attrs.skip ==> r == Ok(Some(MakeName(f.attrs.name, f.ident, rc, rename)))
  {
    if f.attrs.skip then
      match FieldError(f)
      case Some(e) => Err(e)
      case None => Ok(None)
    else Ok(Some(MakeName(f.attrs.name, f.ident, rc, rename)))
  }

  /** `field_probe`: the diagnostic, nothing for a skipped field, or its probe bound to position `idx`. */
  function FieldProbe(idx: nat, f: Field): (r: Result<Option<Probe>, string>)
    ensures FieldError(f).Some? ==> r == Err(FieldError(f).value)
    ensures FieldError(f).None? && f.attrs.skip ==> r == Ok(None)
    ensures !f.attrs.skip ==> r == Ok(Some(Probe(idx, f.attrs.kind)))
  {
    if f.attrs.skip then
      match FieldError(f)
      case Some(e) => Err(e)
      case None => Ok(None)
    else Ok(Some(Probe(idx, f.attrs.kind)))
  }

  /**
   * `filter_map(field_name).collect::<Result<_>>()` over `fields[from..]`:
   * the first error stops it, and each field gives at most one name.
   */
  function CollectNames(fields: seq<Field>, from: nat, rc: Option<RenameCase>, rename: Rename): (r: Result<seq<string>, string>)
    requires from <= |fields|
    ensures r.Ok? ==> |r.value| <= |fields| - from
    decreases |fields| - from
  {
    if from == |fields| then Ok([])
    else match FieldName(fields[from], rc, rename)
      case Err(e) => Err(e)
      case Ok(n) =>
        match CollectNames(fields, from + 1, rc, rename)
        case Err(e) => Err(e)
        case Ok(rest) => Ok((if n.Some? then [n.value] else []) + rest)
  }

  /**
   * `enumerate().filter_map(field_probe).collect::<Result<_>>()` over
   * `fields[from..]`: the probes bind distinct positions of `fields[from..]`, ascending.
   */
  function CollectProbes(fields: seq<Field>, from: nat): (r: Result<seq<Probe>, string>)
    requires from <= |fields|
    ensures r.Ok? ==> forall a :: 0 <= a < |r.value| ==> from <= r.value[a].binding < |fields|
    ensures r.Ok? ==> forall a, b :: 0 <= a < b < |r.value| ==> r.value[a].binding < r.value[b].binding
    decreases |fields| - from
  {
    if from == |fields| then Ok([])
    else match FieldProbe(from, fields[from])
      case Err(e) => Err(e)
      case Ok(p) =>
        match CollectProbes(fields, from + 1)
        case Err(e) => Err(e)
        case Ok(rest) =>
          var ps := (if p.Some? then [p.value] else []) + rest;
          assert p.Some? ==> forall a :: 1 <= a < |ps| ==> ps[a] == rest[a - 1];
          Ok(ps)
  }

  // ---------------------------------------------------------------------
  // Reference descriptions of the field passes.

  /** Positions at or after `from` of the fields that are not skipped, ascending. */
  function KeptFields(fields: seq<Field>, from: nat): seq<nat>
    requires from <= |fields|
    decreases |fields| - from
  {
    if from == |fields| then [] else (if fields[from].attrs.skip then [] else [from]) + KeptFields(fields, from + 1)
  }

  /** The diagnostic of the first offending field at or after `from`. */
  function FirstFieldError(fields: seq<Field>, from: nat): Option<string>
    requires from <= |fields|
    decreases |fields| - from
  {
    if from == |fields| then None
    else if FieldError(fields[from]).Some? then FieldError(fields[from])
    else FirstFieldError(fields, from + 1)
  }

  lemma {:induction false} KeptFieldsExact(fields: seq<Field>, from: nat)
    requires from <= |fields|
    ensures forall i :: i in KeptFields(fields, from) <==> from <= i < |fields| && !fields[i].attrs.skip
    ensures forall a, b :: 0 <= a < b < |KeptFields(fields, from)| ==> KeptFields(fields, from)[a] < KeptFields(fields, from)[b]
    ensures forall a :: 0 <= a < |KeptFields(fields, from)| ==> from <= KeptFields(fields, from)[a] < |fields|
    decreases |fields| - from
  {
    if from < |fields| {
      KeptFieldsExact(fields, from + 1);
    }
  }

  /**
   * The probe pass fails exactly with the first offending field's
   * diagnostic; otherwise it yields one probe per kept field, in order,
   * bound to the field's original position.
   */
  lemma {:induction false} CollectProbesSpec(fields: seq<Field>, from: nat)
    requires from <= |fields|
    ensures CollectProbes(fields, from).Err? <==> FirstFieldError(fields, from).Some?
    ensures CollectProbes(fields, from).Err? ==> CollectProbes(fields, from).error == FirstFieldError(fields, from).value
    ensures CollectProbes(fields, from).Ok? ==>
      var ps, kept := CollectProbes(fields, from).value, KeptFields(fields, from);
      && |ps| == |kept|
      && forall a :: 0 <= a < |ps| ==> kept[a] < |fields| && ps[a] == Probe(kept[a], fields[kept[a]].attrs.kind)
    decreases |fields| - from
  {
    if from < |fields| {
      CollectProbesSpec(fields, from + 1);
      var f, rest, tail := fields[from], CollectProbes(fields, from + 1), KeptFields(fields, from + 1);
      if FieldError(f).None? && f.attrs.skip {
        assert KeptFields(fields, from) == tail;
        if rest.Ok? {
          assert [] + rest.value == rest.value;
        }
      } else if !f.attrs.skip && rest.Ok? {
        var ps, kept := [Probe(from, f.attrs.kind)] + rest.value, KeptFields(fields, from);
        assert kept == [from] + tail;
        assert CollectProbes(fields, from) == Ok(ps);
        forall a | 0 <= a < |ps|
          ensures kept[a] < |fields| && ps[a] == Probe(kept[a], fields[kept[a]].attrs.kind)
        {
          if a > 0 {
            assert ps[a] == rest.value[a - 1] && kept[a] == tail[a - 1];
          }
        }
      }
    }
  }

  /** The name pass fails exactly where the probe pass does, with the same diagnostic. */
  lemma {:induction false} CollectNamesFails(fields: seq<Field>, from: nat, rc: Option<RenameCase>, rename: Rename)
    requires from <= |fields|
    ensures CollectNames(fields, from, rc, rename).Err? <==> FirstFieldError(fields, from).Some?
    ensures CollectNames(fields, from, rc, rename).Err? ==> CollectNames(fields, from, rc, rename).error == FirstFieldError(fields, from).value
    decreases |fields| - from
  {
    if from < |fields| {
      CollectNamesFails(fields, from + 1, rc, rename);
    }
  }

  /** A successful name pass labels the kept fields, in order, by `make_name`. */
  lemma {:induction false} CollectNamesLabels(fields: seq<Field>, from: nat, rc: Option<RenameCase>, rename: Rename)
    requires from <= |fields|
    ensures CollectNames(fields, from, rc, rename).Ok? ==>
      var ns, kept := CollectNames(fields, from, rc, rename).value, KeptFields(fields, from);
      && |ns| == |kept|
      && forall a :: 0 <= a < |ns| ==> kept[a] < |fields| && ns[a] == MakeName(fields[kept[a]].attrs.name, fields[kept[a]].ident, rc, rename)
    decreases |fields| - from
  {
    if from < |fields| {
      CollectNamesLabels(fields, from + 1, rc, rename);
      var f, rest, tail := fields[from], CollectNames(fields, from + 1, rc, rename), KeptFields(fields, from + 1);
      if FieldError(f).None? && f.attrs.skip {
        assert KeptFields(fields, from) == tail;
        if rest.Ok? {
          assert [] + rest.value == rest.value;
        }
      } else if !f.attrs.skip && rest.Ok? {
        var ns, kept := [MakeName(f.attrs.name, f.ident, rc, rename)] + rest.value, KeptFields(fields, from);
        assert kept == [from] + tail;
        assert CollectNames(fields, from, rc, rename) == Ok(ns);
        forall a | 0 <= a < |ns|
          ensures kept[a] < |fields| && ns[a] == MakeName(fields[kept[a]].attrs.name, fields[kept[a]].ident, rc, rename)
        {
          if a > 0 {
            assert ns[a] == rest.value[a - 1] && kept[a] == tail[a - 1];
          }
        }
      }
    }
  }

  /** The name pass fails exactly like the probe pass, and otherwise labels the same kept fields. */
  lemma CollectNamesSpec(fields: seq<Field>, from: nat, rc: Option<RenameCase>, rename: Rename)
    requires from <= |fields|
    ensures CollectNames(fields, from, rc, rename).Err? <==> FirstFieldError(fields, from).Some?
    ensures CollectNames(fields, from, rc, rename).Err? ==> CollectNames(fields, from, rc, rename).error == FirstFieldError(fields, from).value
    ensures CollectNames(fields, from, rc, rename).Ok? ==>
      var ns, kept := CollectNames(fields, from, rc, rename).value, KeptFields(fields, from);
      && |ns| == |kept|
      && forall a :: 0 <= a < |ns| ==> kept[a] < |fields| && ns[a] == MakeName(fields[kept[a]].attrs.name, fields[kept[a]].ident, rc, rename)
  {
    CollectNamesFails(fields, from, rc, rename);
    CollectNamesLabels(fields, from, rc, rename);
  }

  /** Names and probes succeed together and pair up one to one. */
  lemma NamesAndProbesAgree(fields: seq<Field>, rc: Option<RenameCase>, rename: Rename)
    ensures CollectNames(fields, 0, rc, rename).Ok? <==> CollectProbes(fields, 0).Ok?
    ensures CollectNames(fields, 0, rc, rename).Ok? ==> |CollectNames(fields, 0, rc, rename).value| == |CollectProbes(fields, 0).value|
  {
    CollectNamesSpec(fields, 0, rc, rename);
    CollectProbesSpec(fields, 0);
  }

  function Zip(ns: seq<string>, ps: seq<Probe>): (rs: seq<Record>)
    requires |ns| == |ps|
    ensures |rs| == |ns| && forall a :: 0 <= a < |rs| ==> rs[a] == Record(ns[a], ps[a])
  {
    seq(|ns|, a requires 0 <= a < |ns| => Record(ns[a], ps[a]))
  }

  /**
   * `rs` has one record per kept field of `fields`, in declaration order,
   * labelled by `make_name` and bound to the field's original position.
   */
  predicate LabelsKeptFields(fields: seq<Field>, rc: Option<RenameCase>, rename: Rename, rs: seq<Record>) {
    var kept := KeptFields(fields, 0);
    && |rs| == |kept|
    && forall a :: 0 <= a < |kept| ==>
         && kept[a] < |fields|
         && rs[a] == Record(MakeName(fields[kept[a]].attrs.name, fields[kept[a]].ident, rc, rename), Probe(kept[a], fields[kept[a]].attrs.kind))
  }

  /** `fields` keeps exactly one field, and `p` is that field's probe, bound to its original position. */
  predicate ForwardsSoleKept(fields: seq<Field>, p: Probe) {
    var kept := KeptFields(fields, 0);
    |kept| == 1 && kept[0] < |fields| && p == Probe(kept[0], fields[kept[0]].attrs.kind)
  }

  /**
   * The diagnostic a struct's or a variant's fields raise, if any: the
   * first offending field's, else, under `transparent`, `arity` when not
   * exactly one field is kept.
   */
  function FieldsError(fields: seq<Field>, transparent: bool, arity: string): Option<string> {
    if FirstFieldError(fields, 0).Some? then FirstFieldError(fields, 0)
    else if transparent && |KeptFields(fields, 0)| != 1 then Some(arity)
    else None
  }

  /** The records of a non-transparent struct or variant: names and probes of the kept fields. */
  function RecordsOf(fields: seq<Field>, rc: Option<RenameCase>, rename: Rename): (r: Result<seq<Record>, string>)
    ensures r.Err? <==> FirstFieldError(fields, 0).Some?
    ensures r.Err? ==> r.error == FirstFieldError(fields, 0).value
    ensures r.Ok? ==> LabelsKeptFields(fields, rc, rename, r.value)
  {
    CollectNamesSpec(fields, 0, rc, rename);
    CollectProbesSpec(fields, 0);
    match CollectNames(fields, 0, rc, rename)
    case Err(e) => Err(e)
    case Ok(ns) =>
      match CollectProbes(fields, 0)
      case Err(e) => Err(e)
      case Ok(ps) => Ok(Zip(ns, ps))
  }

  /** The single probe of a transparent struct or variant, or `arity` when not exactly one field is kept. */
  function TransparentField(fields: seq<Field>, arity: string): (r: Result<Probe, string>)
    ensures r.Err? <==> FieldsError(fields, true, arity).Some?
    ensures r.Err? ==> r.error == FieldsError(fields, true, arity).value
    ensures r.Ok? ==> ForwardsSoleKept(fields, r.value)
  {
    CollectProbesSpec(fields, 0);
    match CollectProbes(fields, 0)
    case Err(e) => Err(e)
    case Ok(ps) => if |ps| != 1 then Err(arity) else Ok(ps[0])
  }

  // ---------------------------------------------------------------------
  // Variants.

  /** `variant_selected` / `variant_probe`: the label of the variant in the selector. */
  function VariantLabel(v: Variant, rc: Option<RenameCase>, rename: Rename): (r: string)
    ensures v.attrs.name.Some? ==> r == v.attrs.name.value
    ensures v.attrs.name.None? ==> r == (if rc.Some? then rename(rc.value, v.ident) else v.ident)
  {
    MakeName(v.attrs.name, Some(v.ident), rc, rename)
  }

  /**
   * `variant_inline_probe`: a transparent variant's field probe is drawn
   * beside the selector; a plain variant draws nothing there and its fields
   * are not looked at.
   */
  function VariantInlineProbe(v: Variant): (r: Result<Option<Probe>, string>)
    ensures r.Err? <==> v.attrs.transparent && FieldsError(v.fields, true, TransparentVariantError).Some?
    ensures r.Err? ==> r.error == FieldsError(v.fields, true, TransparentVariantError).value
    ensures r.Ok? && !v.attrs.transparent ==> r.value.None?
    ensures r.Ok? && v.attrs.transparent ==> r.value.Some? && ForwardsSoleKept(v.fields, r.value.value)
  {
    if v.attrs.transparent then
      match TransparentField(v.fields, TransparentVariantError)
      case Err(e) => Err(e)
      case Ok(p) => Ok(Some(p))
    else Ok(None)
  }

  /** `variant_iterate_inner`: forward to a transparent variant's field, or one record per kept field. */
  function VariantIterateInner(v: Variant, rc: Option<RenameCase>, rename: Rename): (r: Result<Inner, string>)
    ensures r.Err? <==> FieldsError(v.fields, v.attrs.transparent, TransparentVariantError).Some?
    ensures r.Err? ==> r.error == FieldsError(v.fields, v.attrs.transparent, TransparentVariantError).value
    ensures r.Ok? && v.attrs.transparent ==> r.value.Forward? && ForwardsSoleKept(v.fields, r.value.field)
    ensures r.Ok? && !v.attrs.transparent ==> r.value.Records? && LabelsKeptFields(v.fields, rc, rename, r.value.records)
  {
    if v.attrs.transparent then
      match TransparentField(v.fields, TransparentVariantError)
      case Err(e) => Err(e)
      case Ok(p) => Ok(Forward(p))
    else
      match RecordsOf(v.fields, rc, rename)
      case Err(e) => Err(e)
      case Ok(rs) => Ok(Records(rs))
  }

  /** The diagnostic of the first variant at or after `from` whose inline arm fails. */
  function FirstInlineError(vs: seq<Variant>, from: nat): Option<string>
    requires from <= |vs|
    decreases |vs| - from
  {
    if from == |vs| then None
    else if VariantInlineProbe(vs[from]).Err? then Some(VariantInlineProbe(vs[from]).error)
    else FirstInlineError(vs, from + 1)
  }

  /** The diagnostic of the first variant at or after `from` whose iterate arm fails. */
  function FirstIterateError(vs: seq<Variant>, from: nat, rc: Option<RenameCase>, rename: Rename): Option<string>
    requires from <= |vs|
    decreases |vs| - from
  {
    if from == |vs| then None
    else if VariantIterateInner(vs[from], rc, rename).Err? then Some(VariantIterateInner(vs[from], rc, rename).error)
    else FirstIterateError(vs, from + 1, rc, rename)
  }

  /**
   * The inline arms of `vs[from..]`, collected with `?`: the pass fails
   * exactly when some variant's arm fails, with the first such diagnostic,
   * and otherwise holds each variant's arm in order.
   */
  function InlinePass(vs: seq<Variant>, from: nat): (r: Result<seq<Option<Probe>>, string>)
    requires from <= |vs|
    ensures r.Err? <==> FirstInlineError(vs, from).Some?
    ensures r.Err? ==> r.error == FirstInlineError(vs, from).value
    ensures r.Ok? ==> |r.value| == |vs| - from
    ensures r.Ok? ==> forall i :: 0 <= i < |r.value| ==> VariantInlineProbe(vs[from + i]) == Ok(r.value[i])
    decreases |vs| - from
  {
    if from == |vs| then Ok([])
    else match VariantInlineProbe(vs[from])
      case Err(e) => Err(e)
      case Ok(p) =>
        match InlinePass(vs, from + 1)
        case Err(e) => Err(e)
        case Ok(rest) =>
          assert forall i :: 1 <= i < 1 + |rest| ==> ([p] + rest)[i] == rest[i - 1] && vs[from + i] == vs[(from + 1) + (i - 1)];
          Ok([p] + rest)
  }

  /** The iterate arms of `vs[from..]`, collected with `?`, described like the inline pass. */
  function IteratePass(vs: seq<Variant>, from: nat, rc: Option<RenameCase>, rename: Rename): (r: Result<seq<Inner>, string>)
    requires from <= |vs|
    ensures r.Err? <==> FirstIterateError(vs, from, rc, rename).Some?
    ensures r.Err? ==> r.error == FirstIterateError(vs, from, rc, rename).value
    ensures r.Ok? ==> |r.value| == |vs| - from
    ensures r.Ok? ==> forall i :: 0 <= i < |r.value| ==> VariantIterateInner(vs[from + i], rc, rename) == Ok(r.value[i])
    decreases |vs| - from
  {
    if from == |vs| then Ok([])
    else match VariantIterateInner(vs[from], rc, rename)
      case Err(e) => Err(e)
      case Ok(inner) =>
        match IteratePass(vs, from + 1, rc, rename)
        case Err(e) => Err(e)
        case Ok(rest) =>
          assert forall i :: 1 <= i < 1 + |rest| ==> ([inner] + rest)[i] == rest[i - 1] && vs[from + i] == vs[(from + 1) + (i - 1)];
          Ok([inner] + rest)
  }

  /** Style selection: no `tags` defers to the runtime style, otherwise the tag fixes it. */
  function StyleOf(tags: Option<TagsKind>): (c: StyleChoice)
    ensures tags.None? ==> c == FromStyle
    ensures tags == Some(TagsInlined) ==> c == Fixed(Inlined)
    ensures tags == Some(TagsComboBox) ==> c == Fixed(ComboBox)
  {
    match tags
    case None => FromStyle
    case Some(TagsInlined) => Fixed(Inlined)
    case Some(TagsComboBox) => Fixed(ComboBox)
  }

  /**
   * The selector style a generated enum probe uses at run time: the
   * style's `variants` setting without `tags`, the tagged style otherwise.
   */
  function EffectiveVariantsStyle(c: StyleChoice, style: Style): (s: VariantsStyle)
    ensures c == StyleOf(None) ==> s == style.variants
    ensures c == StyleOf(Some(TagsInlined)) ==> s == Inlined
    ensures c == StyleOf(Some(TagsComboBox)) ==> s == ComboBox
  {
    match c
    case FromStyle => style.variants
    case Fixed(s) => s
  }

  // ---------------------------------------------------------------------
  // The macro.

  /**
   * `derive`: unions are rejected; a struct may not carry `tags`, then its
   * probes are collected, and a transparent struct needs exactly one of
   * them; an enum makes the inline pass over all variants before the
   * iterate pass. An enum-level `transparent` has no effect.
   */
  function DeriveImpl(input: DeriveInput, rename: Rename): (r: Result<Impl, string>)
    ensures input.data.Union? ==> r == Err(UnionError)
    ensures input.data.Struct? && input.attrs.tags.Some? ==> r == Err(TagsOnStructError)
    ensures r.Ok? ==> (r.value.EnumImpl? <==> input.data.Enum?)
    ensures r.Ok? && input.data.Struct? ==> (r.value.TransparentStruct? <==> input.attrs.transparent)
    ensures r.Ok? && input.data.Enum? ==>
      && r.value.style == StyleOf(input.attrs.tags)
      && |r.value.variants| == |input.data.variants|
      && forall i :: 0 <= i < |r.value.variants| ==>
           r.value.variants[i].title == VariantLabel(input.data.variants[i], input.attrs.renameAll, rename)
  {
    var rc := input.attrs.renameAll;
    match input.data
    case Union => Err(UnionError)
    case Struct(fields) =>
      if input.attrs.tags.Some? then Err(TagsOnStructError)
      else if input.attrs.transparent then
        (match TransparentField(fields, TransparentStructError)
         case Err(e) => Err(e)
         case Ok(p) => Ok(TransparentStruct(p)))
      else
        (match CollectProbes(fields, 0)
         case Err(e) => Err(e)
         case Ok(_) =>
           match RecordsOf(fields, rc, rename)
           case Err(e) => Err(e)
           case Ok(rs) => Ok(RecordStruct(input.ident, rs)))
    case Enum(vs) =>
      match InlinePass(vs, 0)
      case Err(e) => Err(e)
      case Ok(inl) =>
        match IteratePass(vs, 0, rc, rename)
        case Err(e) => Err(e)
        case Ok(its) =>
          Ok(EnumImpl(StyleOf(input.attrs.tags),
                      seq(|vs|, i requires 0 <= i < |vs| => VariantImpl(VariantLabel(vs[i], rc, rename), inl[i], its[i]))))
  }

  /** Unions and structs with `tags` are rejected with their diagnostics. */
  lemma DeriveRejects(input: DeriveInput, rename: Rename)
    ensures input.data.Union? ==> DeriveImpl(input, rename) == Err(UnionError)
    ensures input.data.Struct? && input.attrs.tags.Some? ==> DeriveImpl(input, rename) == Err(TagsOnStructError)
  {
  }

  /**
   * A struct: the first offending field's diagnostic; else, when
   * transparent, exactly one kept field or the arity diagnostic; else one
   * record per kept field, in declaration order, labelled by `make_name` and
   * bound to the field's original position.
   */
  lemma {:induction false} DeriveStruct(input: DeriveInput, rename: Rename)
    requires input.data.Struct? && input.attrs.tags.None?
    ensures var fields, r := input.data.fields, DeriveImpl(input, rename);
      var kept := KeptFields(fields, 0);
      && (FirstFieldError(fields, 0).Some? ==> r == Err(FirstFieldError(fields, 0).value))
      && (FirstFieldError(fields, 0).None? && input.attrs.transparent ==>
            (|kept| == 1 ==> kept[0] < |fields| && r == Ok(TransparentStruct(Probe(kept[0], fields[kept[0]].attrs.kind))))
            && (|kept| != 1 ==> r == Err(TransparentStructError)))
      && (FirstFieldError(fields, 0).None? && !input.attrs.transparent ==>
            && r.Ok? && r.value.RecordStruct? && r.value.typeName == input.ident
            && LabelsKeptFields(fields, input.attrs.renameAll, rename, r.value.records))
  {
    CollectProbesSpec(input.data.fields, 0);
  }

  /** Records that label the kept fields of a valid plain struct are exactly what it derives to. */
  lemma DeriveRecordStruct(input: DeriveInput, rename: Rename, rs: seq<Record>)
    requires input.data.Struct? && input.attrs.tags.None? && !input.attrs.transparent
    requires FirstFieldError(input.data.fields, 0).None?
    requires LabelsKeptFields(input.data.fields, input.attrs.renameAll, rename, rs)
    ensures DeriveImpl(input, rename) == Ok(RecordStruct(input.ident, rs))
  {
    DeriveStruct(input, rename);
    var derived := DeriveImpl(input, rename).value.records;
    assert |derived| == |rs|;
    assert forall a :: 0 <= a < |rs| ==> derived[a] == rs[a];
    assert derived == rs;
  }

  /**
   * An enum: the first variant whose inline arm fails decides the
   * diagnostic, then the first whose iterate arm fails; otherwise one
   * implementation per variant, in order, with the variant's label, its
   * inline arm and its iterate arm, under the style `tags` selects.
   */
  lemma DeriveEnum(input: DeriveInput, rename: Rename)
    requires input.data.Enum?
    ensures var vs, rc, r := input.data.variants, input.attrs.renameAll, DeriveImpl(input, rename);
      && (FirstInlineError(vs, 0).Some? ==> r == Err(FirstInlineError(vs, 0).value))
      && (FirstInlineError(vs, 0).None? && FirstIterateError(vs, 0, rc, rename).Some? ==>
            r == Err(FirstIterateError(vs, 0, rc, rename).value))
      && (FirstInlineError(vs, 0).None? && FirstIterateError(vs, 0, rc, rename).None? ==>
            && r.Ok? && r.value.EnumImpl? && r.value.style == StyleOf(input.attrs.tags)
            && |r.value.variants| == |vs|
            && forall i :: 0 <= i < |vs| ==>
                 && VariantInlineProbe(vs[i]).Ok? && VariantIterateInner(vs[i], rc, rename).Ok?
                 && r.value.variants[i] == VariantImpl(VariantLabel(vs[i], rc, rename),
                                                       VariantInlineProbe(vs[i]).value, VariantIterateInner(vs[i], rc, rename).value))
  {
    var vs, rc := input.data.variants, input.attrs.renameAll;
    var inl, its := InlinePass(vs, 0), IteratePass(vs, 0, rc, rename);
    if inl.Ok? && its.Ok? {
      forall i | 0 <= i < |vs|
        ensures VariantInlineProbe(vs[i]) == Ok(inl.value[i]) && VariantIterateInner(vs[i], rc, rename) == Ok(its.value[i])
      {
        assert vs[0 + i] == vs[i];
      }
    }
  }

  /** A transparent variant's inline probe and forwarded records are its one kept field. */
  lemma {:induction false} TransparentVariantArity(v: Variant, rc: Option<RenameCase>, rename: Rename)
    requires v.attrs.transparent && FirstFieldError(v.fields, 0).None?
    ensures var kept := KeptFields(v.fields, 0);
      && (|kept| != 1 ==> VariantInlineProbe(v) == Err(TransparentVariantError) && VariantIterateInner(v, rc, rename) == Err(TransparentVariantError))
      && (|kept| == 1 ==>
            kept[0] < |v.fields| &&
            var p := Probe(kept[0], v.fields[kept[0]].attrs.kind);
            VariantInlineProbe(v) == Ok(Some(p)) && VariantIterateInner(v, rc, rename) == Ok(Forward(p)))
  {
    KeptFieldsExact(v.fields, 0);
    CollectProbesSpec(v.fields, 0);
  }

  /** The enum's selector style follows `tags`, and an enum-level `transparent` changes nothing. */
  lemma DeriveEnumStyle(input: DeriveInput, rename: Rename, style: Style)
    requires input.data.Enum?
    ensures DeriveImpl(input, rename).Ok? ==> DeriveImpl(input, rename).value.EnumImpl?
    ensures DeriveImpl(input, rename).Ok? && input.attrs.tags.None? ==>
      EffectiveVariantsStyle(DeriveImpl(input, rename).value.style, style) == style.variants
    ensures DeriveImpl(input, rename).Ok? && input.attrs.tags == Some(TagsInlined) ==>
      EffectiveVariantsStyle(DeriveImpl(input, rename).value.style, style) == Inlined
    ensures DeriveImpl(input, rename).Ok? && input.attrs.tags == Some(TagsComboBox) ==>
      EffectiveVariantsStyle(DeriveImpl(input, rename).value.style, style) == ComboBox
    ensures DeriveImpl(input.(attrs := input.attrs.(transparent := !input.attrs.transparent)), rename) == DeriveImpl(input, rename)
  {
  }

  /**
   * The inline pass runs over every variant before the iterate pass, so a
   * later transparent variant's arity diagnostic is reported even when an
   * earlier plain variant has an offending field.
   */
  lemma TransparentErrorReportedFirst(rename: Rename)
    ensures
      var plain := Variant("A", [Field(Some("x"), FieldAttributes(true, Some("x"), None))], VariantAttributes(None, false));
      var wide := Variant("B", [Field(None, FieldAttributes(false, None, None)), Field(None, FieldAttributes(false, None, None))],
                          VariantAttributes(None, true));
      DeriveImpl(DeriveInput("E", TypeAttributes(None, false, None), Enum([plain, wide])), rename) == Err(TransparentVariantError)
  {
    var wide := Variant("B", [Field(None, FieldAttributes(false, None, None)), Field(None, FieldAttributes(false, None, None))],
                        VariantAttributes(None, true));
    assert FieldProbe(0, wide.fields[0]) == Ok(Some(Probe(0, None)));
    assert FieldProbe(1, wide.fields[1]) == Ok(Some(Probe(1, None)));
    assert CollectProbes(wide.fields, 2) == Ok([]);
    assert [Probe(1, None)] + [] == [Probe(1, None)];
    assert CollectProbes(wide.fields, 1) == Ok([Probe(1, None)]);
    assert [Probe(0, None)] + [Probe(1, None)] == [Probe(0, None), Probe(1, None)];
    assert CollectProbes(wide.fields, 0) == Ok([Probe(0, None), Probe(1, None)]);
  }

  /** Field `i` of the crate's attribute test struct, one per field attribute, the first one skipped. */
  function AttributeTestField(i: nat): Field {
    if i == 0 then Field(Some("skipped"), FieldAttributes(true, None, None))
    else if i == 1 then Field(Some("a"), FieldAttributes(false, Some("renamed"), None))
    else if i == 2 then Field(Some("b"), FieldAttributes(false, None, Some(With("|_, ui, _| ui.label(\"a label\")"))))
    else if i == 3 then Field(Some("c"), FieldAttributes(false, None, Some(ProbeAs("angle"))))
    else if i == 4 then Field(Some("d"), FieldAttributes(false, None, Some(Range("0..=100"))))
    else if i == 5 then Field(Some("e"), FieldAttributes(false, None, Some(Multiline)))
    else if i == 6 then Field(Some("f"), FieldAttributes(false, None, Some(Multiline)))
    else if i == 7 then Field(Some("g"), FieldAttributes(false, None, Some(FieldProbeKind.ToggleSwitch)))
    else if i == 8 then Field(Some("h"), FieldAttributes(false, None, Some(FieldProbeKind.ToggleSwitch)))
    else if i == 9 then Field(Some("i"), FieldAttributes(false, None, Some(Frozen)))
    else if i == 10 then Field(Some("j"), FieldAttributes(false, None, Some(Rgb)))
    else if i == 11 then Field(Some("k"), FieldAttributes(false, None, Some(Rgba)))
    else if i == 12 then Field(Some("l"), FieldAttributes(false, None, Some(RgbaPremultiplied)))
    else Field(Some("m"), FieldAttributes(false, None, Some(RgbaUnmultiplied)))
  }

  /** The fourteen fields of the attribute test struct, `skipped` and `a` to `m`. */
  function AttributeTestFields(): seq<Field> {
    seq(14, i requires 0 <= i < 14 => AttributeTestField(i))
  }

  /** When no field at or after `from` is skipped, every one of them is kept and none is offending. */
  lemma {:induction false} NoneSkippedFrom(fields: seq<Field>, from: nat)
    requires from <= |fields|
    requires forall i :: from <= i < |fields| ==> !fields[i].attrs.skip
    ensures |KeptFields(fields, from)| == |fields| - from
    ensures forall a :: 0 <= a < |fields| - from ==> KeptFields(fields, from)[a] == from + a
    ensures FirstFieldError(fields, from).None?
    decreases |fields| - from
  {
    if from < |fields| {
      NoneSkippedFrom(fields, from + 1);
      var tail := KeptFields(fields, from + 1);
      assert KeptFields(fields, from) == [from] + tail;
      assert forall a :: 1 <= a < |fields| - from ==> ([from] + tail)[a] == tail[a - 1];
    }
  }

  /** Every field of the attribute test struct but the first is kept, and none is offending. */
  lemma AttributeTestKept()
    ensures |KeptFields(AttributeTestFields(), 0)| == 13
    ensures forall a :: 0 <= a < 13 ==> KeptFields(AttributeTestFields(), 0)[a] == 1 + a
    ensures FirstFieldError(AttributeTestFields(), 0).None?
  {
    var fields := AttributeTestFields();
    assert forall i :: 1 <= i < |fields| ==> !fields[i].attrs.skip;
    NoneSkippedFrom(fields, 1);
  }

  /**
   * Record `a` of those the attribute test struct derives to under
   * `rename_all = Train-Case`: there is none for the skipped field, the
   * explicit name wins over the case conversion for `a`, and every field
   * keeps its probe kind and the binding of its original position.
   */
  function AttributeTestRecord(rename: Rename, a: nat): Record {
    if a == 0 then Record("renamed", Probe(1, None))
    else if a == 1 then Record(rename(TrainCase, "b"), Probe(2, Some(With("|_, ui, _| ui.label(\"a label\")"))))
    else if a == 2 then Record(rename(TrainCase, "c"), Probe(3, Some(ProbeAs("angle"))))
    else if a == 3 then Record(rename(TrainCase, "d"), Probe(4, Some(Range("0..=100"))))
    else if a == 4 then Record(rename(TrainCase, "e"), Probe(5, Some(Multiline)))
    else if a == 5 then Record(rename(TrainCase, "f"), Probe(6, Some(Multiline)))
    else if a == 6 then Record(rename(TrainCase, "g"), Probe(7, Some(FieldProbeKind.ToggleSwitch)))
    else if a == 7 then Record(rename(TrainCase, "h"), Probe(8, Some(FieldProbeKind.ToggleSwitch)))
    else if a == 8 then Record(rename(TrainCase, "i"), Probe(9, Some(Frozen)))
    else if a == 9 then Record(rename(TrainCase, "j"), Probe(10, Some(Rgb)))
    else if a == 10 then Record(rename(TrainCase, "k"), Probe(11, Some(Rgba)))
    else if a == 11 then Record(rename(TrainCase, "l"), Probe(12, Some(RgbaPremultiplied)))
    else Record(rename(TrainCase, "m"), Probe(13, Some(RgbaUnmultiplied)))
  }

  /** The thirteen records, for the fields `a` to `m`. */
  function AttributeTestRecords(rename: Rename): seq<Record> {
    seq(13, a requires 0 <= a < 13 => AttributeTestRecord(rename, a))
  }

  /** Record `a` of the attribute test is the one `make_name` and `field_probe` give field `a + 1`. */
  lemma AttributeTestLabel(rename: Rename, a: nat)
    requires a < 13
    ensures AttributeTestRecord(rename, a)
              == Record(MakeName(AttributeTestField(a + 1).attrs.name, AttributeTestField(a + 1).ident, Some(TrainCase), rename),
                        Probe(a + 1, AttributeTestField(a + 1).attrs.kind))
  {
  }

  /** The expected records label the kept fields of the attribute test struct. */
  lemma AttributeTestLabels(rename: Rename)
    ensures LabelsKeptFields(AttributeTestFields(), Some(TrainCase), rename, AttributeTestRecords(rename))
  {
    AttributeTestKept();
    forall a | 0 <= a < 13 {
      AttributeTestLabel(rename, a);
    }
  }

  /** The attribute test struct derives to a record struct with exactly the expected records. */
  lemma AttributeTestStruct(rename: Rename)
    ensures DeriveImpl(DeriveInput("FieldAttributes", TypeAttributes(Some(TrainCase), false, None), Struct(AttributeTestFields())), rename)
              == Ok(RecordStruct("FieldAttributes", AttributeTestRecords(rename)))
  {
    AttributeTestKept();
    AttributeTestLabels(rename);
    DeriveRecordStruct(DeriveInput("FieldAttributes", TypeAttributes(Some(TrainCase), false, None), Struct(AttributeTestFields())),
                       rename, AttributeTestRecords(rename));
  }

  /**
   * The enum of the crate's attribute test: `tags combobox` fixes the
   * selector style, a variant's `name` labels it, and a transparent variant
   * with one skipped field forwards to its other field, binding 1.
   */
  lemma AttributeTestEnum(rename: Rename)
    ensures
      var a := Variant("A", [], VariantAttributes(Some("renamed"), false));
      var b := Variant("B", [Field(Some("skipped"), FieldAttributes(true, None, None)), Field(Some("b"), FieldAttributes(false, None, None))],
                        VariantAttributes(None, true));
      DeriveImpl(DeriveInput("EnumAttributes", TypeAttributes(None, false, Some(TagsComboBox)), Enum([a, b])), rename)
        == Ok(EnumImpl(Fixed(ComboBox), [VariantImpl("renamed", None, Records([])),
                                         VariantImpl("B", Some(Probe(1, None)), Forward(Probe(1, None)))]))
  {
    var b := Variant("B", [Field(Some("skipped"), FieldAttributes(true, None, None)), Field(Some("b"), FieldAttributes(false, None, None))],
                      VariantAttributes(None, true));
    assert FieldProbe(0, b.fields[0]) == Ok(None);
    assert FieldProbe(1, b.fields[1]) == Ok(Some(Probe(1, None)));
    assert CollectProbes(b.fields, 2) == Ok([]);
    assert [Probe(1, None)] + [] == [Probe(1, None)];
    assert CollectProbes(b.fields, 1) == Ok([Probe(1, None)]);
    assert [] + [Probe(1, None)] == [Probe(1, None)];
    assert CollectProbes(b.fields, 0) == Ok([Probe(1, None)]);
    var a := Variant("A", [], VariantAttributes(Some("renamed"), false));
    assert VariantInlineProbe(a) == Ok(None);
    assert VariantIterateInner(a, None, rename) == Ok(Records([]));
    assert TransparentField(b.fields, TransparentVariantError) == Ok(Probe(1, None));
    var vs := [a, b];
    assert vs[0] == a && vs[1] == b;
    assert VariantInlineProbe(vs[1]) == Ok(Some(Probe(1, None)));
    assert VariantIterateInner(vs[1], None, rename) == Ok(Forward(Probe(1, None)));
    assert InlinePass(vs, 2) == Ok([]);
    assert [Some(Probe(1, None))] + [] == [Some(Probe(1, None))];
    assert InlinePass(vs, 1) == Ok([Some(Probe(1, None))]);
    assert [None] + [Some(Probe(1, None))] == [None, Some(Probe(1, None))];
    assert InlinePass(vs, 0) == Ok([None, Some(Probe(1, None))]);
    assert IteratePass(vs, 2, None, rename) == Ok([]);
    assert [Forward(Probe(1, None))] + [] == [Forward(Probe(1, None))];
    assert IteratePass(vs, 1, None, rename) == Ok([Forward(Probe(1, None))]);
    assert [Records([])] + [Forward(Probe(1, None))] == [Records([]), Forward(Probe(1, None))];
    assert IteratePass(vs, 0, None, rename) == Ok([Records([]), Forward(Probe(1, None))]);
    var inl, its := [None, Some(Probe(1, None))], [Records([]), Forward(Probe(1, None))];
    var impls := seq(|vs|, i requires 0 <= i < |vs| => VariantImpl(VariantLabel(vs[i], None, rename), inl[i], its[i]));
    var expected := [VariantImpl("renamed", None, Records([])), VariantImpl("B", Some(Probe(1, None)), Forward(Probe(1, None)))];
    assert impls[0] == expected[0];
    assert impls[1] == expected[1];
    assert impls == expected;
  }

  // ---------------------------------------------------------------------
  // The generated enum probe at run time.

  /** A value of the enum: which variant, and its payload. */
  datatype EnumValue<P> = EnumValue(variant: nat, payload: P)

  /** The highest-numbered variant below `n` whose label was clicked. */
  function LastClicked(clicked: nat -> bool, n: nat): (r: Option<nat>)
    ensures r.Some? ==> r.value < n && clicked(r.value) && forall k :: r.value < k < n ==> !clicked(k)
    ensures r.None? ==> forall k :: 0 <= k < n ==> !clicked(k)
  {
    if n == 0 then None else if clicked(n - 1) then Some(n - 1) else LastClicked(clicked, n - 1)
  }

  /**
   * The value after the labels of variants `0 .. n-1` were drawn: no click
   * keeps it; a sole click on the active variant keeps it; otherwise the
   * last clicked variant with its all-default payload.
   */
  ghost function SwitchOutcome<P>(value: EnumValue<P>, defaults: nat -> P, clicked: nat -> bool, n: nat): EnumValue<P> {
    match LastClicked(clicked, n)
    case None => value
    case Some(j) =>
      if j == value.variant && (forall k :: 0 <= k < n && clicked(k) ==> k == j) then value
      else EnumValue(j, defaults(j))
  }

  /**
   * The generated `probe`'s selector: for each variant in order, whether the
   * value currently is that variant is decided afresh, and a click on a
   * variant it is not replaces the value with that variant's defaulted
   * payload.
   */
  method ProbeVariants<P>(value: EnumValue<P>, count: nat, defaults: nat -> P, clicked: nat -> bool) returns (r: EnumValue<P>)
    ensures r == SwitchOutcome(value, defaults, clicked, count)
  {
    r := value;
    var i := 0;
    while i < count
      invariant 0 <= i <= count
      invariant r == SwitchOutcome(value, defaults, clicked, i)
    {
      var checked := r.variant == i;
      if clicked(i) && !checked {
        r := EnumValue(i, defaults(i));
      }
      i := i + 1;
    }
  }

  /** One click per frame: on an inactive variant it switches to that variant's defaults, on the active one it keeps the value. */
  lemma SingleClickSwitch<P>(value: EnumValue<P>, defaults: nat -> P, count: nat, j: nat)
    requires j < count
    ensures var clicked := (k: nat) => k == j;
      && (j != value.variant ==> SwitchOutcome(value, defaults, clicked, count) == EnumValue(j, defaults(j)))
      && (j == value.variant ==> SwitchOutcome(value, defaults, clicked, count) == value)
  {
    var clicked := (k: nat) => k == j;
    assert clicked(j);
    assert LastClicked(clicked, count) == Some(j);
  }
}
