# egui-probe, modelled in Dafny

egui-probe draws an inspector for a Rust value inside an egui window. The
value describes itself through the `EguiProbe` visitor: `probe` draws its
inline editor, `has_inner` says whether it has children and `iterate_inner`
hands each child to a callback under a label. This project models the
bookkeeping of the crate, and none of its drawing:

- **the renderer** (`widget.rs`): the collapsible headers, whose `{open,
  body_height}` state lives in egui's per-id temporary data; the label
  column, whose width is negotiated over a pass; and the recursive walk that
  gives children the ids `0 .. n-1` and descends only into open children.
  One call of `Widget.Show` is one frame. Clicks, openness, measured label
  widths and table heights are inputs.
- **the adapters** for options, vectors and smallvecs, arrays and slices,
  and `std`/`hashbrown` hash maps: pushing a default, removing flagged
  elements through `DeleteMe` and `retain`, adding map keys with parse and
  duplicate rejection, the None/Some selector, and `[i]` labels.
- **the derive macro** (`proc/src/probe.rs`) over parsed attributes: the
  labels, probe kinds and binding positions of the generated records, or
  the diagnostic it reports; and the variant switch of a generated enum
  probe.
- **integer range editors** (`num.rs`): the clamp bounds of each range
  shape, and the `lo..=hi` hint printed beside the editor.

Modules, one per file: `Wrappers` (Option/Result), `Labels` (decimal text
and `[k]` labels), `Egui` (ids and the temporary data store), `Styles` and
`EguiProbe` (`lib.dfy`), `Widget` and `WidgetFacts`, `Options`,
`Collections`, `Arrays`, `Vecs`, `Maps`, `Nums`, `Customize`, `Derive`.

An egui `Id` is modelled as the path of `with` steps that built it, so ids
are equal exactly when their paths are (hash collisions are not modelled).
The renderer walks a `Node(hasInner, children)` snapshot of the value. The
adapters model the edits. `WidgetFacts` states a frame against independent
descriptions: the set of ids a frame visits, the header state each visited
id ends with, and the widest label.

Where the specification and the code differ, the model follows the code:

- The header state has no `has_inner` field. A node without inner records
  gets no header and loads nothing (widget.rs:270-272).
- `show_header` drops the response of each row's probe (widget.rs:282-284),
  and for a value with inner records `Probe::show` returns the response of
  `allocate_ui` (widget.rs:206-253). So no change flag travels from a nested
  editor to the caller. Only a value without inner records returns its own
  probe's response (widget.rs:202-204); that response is the adapter's.
  `Widget.Show` returns nothing.

## Model

| member | source | states |
|---|---|---|
| Labels.IndexLabels | src/array.rs:15-19 | child k of a sequence is labelled `[k]`, for k = 0 .. n-1 in order, and there are exactly n labels |
| Labels.NatToStringRoundTrip | src/vec.rs:32 | the decimal text of an index is non-empty, all digits, and reads back as the index |
| Labels.NatToStringInjective | src/array.rs:17 | distinct numbers print differently |
| Labels.IntToStringRoundTrip | src/num.rs:26 | the text of a signed bound is non-empty, made of '-' and digits, and reads back as the bound |
| Labels.IndexLabelsDistinct | src/vec.rs:25-36 | two children of one sequence never share a label |
| Labels.IndexLabel | src/vec.rs:32 | the label `[k]` is bracketed, its inner text is all digits, and it reads back as k |
| Styles.DefaultBooleanStyle | src/lib.rs:133-138 | the default boolean style is Checkbox |
| Styles.DefaultVariantsStyle | src/lib.rs:146-151 | the default variants style is ComboBox |
| Styles.DefaultStyle | src/lib.rs:163-174 | the default style uses both defaults, and has no indent size and no button characters |
| Styles.AddButtonText | src/lib.rs:178-180 | the add button text is one character: the configured one, or "+" when unset |
| Styles.RemoveButtonText | src/lib.rs:183-185 | the remove button text is one character: the configured one, or "-" when unset |
| EguiProbe.DefaultIterateInner | src/lib.rs:197-204 | the trait's default `iterate_inner` yields no children |
| Egui.TempData.GetTempMutOr | src/widget.rs:20-28 | the stored state is returned, or the default when none is stored, and the returned state is then stored under the id; the same in src/widget.rs:96 and src/map.rs:26-43 |
| Egui.TempData.InsertTemp | src/widget.rs:42 | the state is stored under the id and no other entry changes; the same in src/widget.rs:108 and src/map.rs:47 |
| Widget.ToggleTwiceRestores | src/widget.rs:47-50 | a toggle flips `open`, and two toggles restore the state |
| Widget.ProbeHeader.Load | src/widget.rs:19-38 | the header holds the stored state, or `{open: false, body_height: 0}` when none is stored; that state is inserted into the store; dirty is false |
| Widget.ProbeHeader.Store | src/widget.rs:40-45 | the store gets the state under the header's id when dirty, and is unchanged otherwise |
| Widget.ProbeHeader.Toggle | src/widget.rs:47-50 | `open` is flipped, and dirty is set |
| Widget.ProbeHeader.SetBodyHeight | src/widget.rs:56-62 | the height is replaced and dirty set exactly when it moves by more than 0.001; otherwise nothing changes |
| Widget.ProbeHeader.BodyShift | src/widget.rs:64-66 | the shift is 0 when fully open and the body height when closed; for a non-negative height it lies between 0 and that height |
| Widget.ProbeHeader.CollapseButton | src/widget.rs:68-79 | a click toggles the header and sets dirty; no click changes nothing |
| Widget.ProbeLayout.Load | src/widget.rs:95-103 | the layout holds the stored width (inserting 0 when none is stored), is clean, and starts the pass with a minimum of 0 |
| Widget.ProbeLayout.Store | src/widget.rs:105-111 | when dirty, the pass's widest label becomes the stored width; otherwise the store and state are untouched |
| Widget.ProbeLayout.BumpLabelsWidth | src/widget.rs:113-118 | the minimum becomes the max of itself and the width, and dirty is set exactly on a strict increase |
| Widget.ProbeLayout.InnerLabelUi | src/widget.rs:120-153 | the column is drawn at last pass's width, and the measured label only bumps this pass's minimum |
| Widget.ShowHeader | src/widget.rs:257-288 | a header exists exactly when the value has inner records; it is loaded under the row's id and toggled by its click; the label always bumps the layout |
| Widget.ShowTable | src/widget.rs:290-343 | child k gets id `table.with(k)`; open children with inner records are recursed into; the header store and label minimum end as the fold `TableHeaders`/`TableWidth` says; the minimum never decreases; the parent's body height is re-measured |
| Widget.Show | src/widget.rs:201-254 | a value without inner records stores nothing; otherwise the root header is under `probe_header`, the table under `table` and the layout under `probe_layout`; both stores end as `ShowHeaders`/`ShowLayouts` say |
| WidgetFacts.NodeIdsUnder | src/widget.rs:316-336 | the ids a node visits are its own header id, or lie strictly below its table id |
| WidgetFacts.TableIdsUnder | src/widget.rs:316-336 | every id a table visits lies strictly below the table's id |
| WidgetFacts.ChildrenIdsUnder | src/widget.rs:316-336 | the ids visited for the first k children start with the table id followed by an index below k |
| WidgetFacts.ChildSubtreeUnder | src/widget.rs:318-331 | every id in child j's subtree is the table id followed by index j |
| WidgetFacts.ChildIdsUnder | src/widget.rs:268-272 | a child's subtree lies under the child's own id |
| WidgetFacts.SiblingSubtreesDisjoint | src/widget.rs:316-336 | the subtrees of two different siblings share no id, so their stored states never collide |
| WidgetFacts.ShowIdsUnderBase | src/widget.rs:207-214 | every id a frame visits lies under the widget's base id |
| WidgetFacts.NodeHeadersFinal | src/widget.rs:226-243 | after a node, every visited id holds its loaded state, toggled if clicked and re-measured if open; every other id is unchanged |
| WidgetFacts.TableHeadersFinal | src/widget.rs:316-336 | the same for a table's children |
| WidgetFacts.ChildrenHeadersFinal | src/widget.rs:316-336 | the same for the first k children |
| WidgetFacts.ChildHeadersFinal | src/widget.rs:318-333 | the same for one child |
| WidgetFacts.ShowHeadersFinal | src/widget.rs:201-254 | after a frame, each visited header holds its final state, computed from the previous store alone; all other entries are unchanged |
| WidgetFacts.ToggleSeenNextFrame | src/widget.rs:40-50 | a header clicked in one frame loads with `open` flipped in the next; an unclicked one loads as it was |
| WidgetFacts.ClosedNodeLoadsOnlyItself | src/widget.rs:320-331 | a closed node visits only its own header |
| WidgetFacts.NodeWidthMax | src/widget.rs:226-240 | a node's pass leaves the maximum of the start width and the label widths of the rows it drew |
| WidgetFacts.TableWidthMax | src/widget.rs:316-336 | the same for a table |
| WidgetFacts.ChildrenWidthMax | src/widget.rs:316-336 | the same for the first k children |
| WidgetFacts.ChildWidthMax | src/widget.rs:274-280 | the same for one child row and its open subtree |
| WidgetFacts.ShowLayoutsStoresWidest | src/widget.rs:227-240 | with the root open, the stored width becomes the widest label drawn in the frame; if no label had positive width, the stored width is kept |
| WidgetFacts.ShowLayoutsSettles | src/widget.rs:105-118 | with the same measurements, a second frame leaves the layout store as the first left it |
| Options.OptionProbeWith | src/option.rs:27-69 | the result is Some exactly when "Some" was clicked, or the value was Some and "None" was not clicked; a Some result is the inner editor's result on the old payload or on `default`; changed is set exactly when the variant switched or the inner editor reported a change |
| Options.BothClickedGivesSome | src/option.rs:37-44 | when both labels are clicked, "Some" wins; a None value becomes the edited default and reports a change |
| Options.NoClickKeepsVariant | src/option.rs:46-56 | with no click the variant stays; None stays None and reports nothing; Some is only edited by the inner editor |
| Options.OptionChildren | src/option.rs:15-23 | None has no children; Some has the payload's children |
| Options.ProbeDefault.Probe | src/option.rs:79-83 | the wrapper's value goes through the selector with the wrapper's own default |
| Options.ProbeDefault.Children | src/option.rs:86-94 | None has no children; Some has the payload's children |
| Options.ProbeDefaultUsesOwnDefault | src/option.rs:80 | switching an empty wrapper to Some materialises the wrapper's default, not the type's |
| Collections.DeleteMe.constructor | src/vec.rs:28-31 | a fresh wrapper is not marked for deletion |
| Collections.DeleteMe.Probe | src/collections.rs:13-22 | the wrapped value's editor runs first; a remove click sets `delete`, and nothing clears it |
| Collections.DeleteMe.HasInner | src/collections.rs:24-26 | the wrapper has inner records exactly when the value has them and it is not marked for deletion |
| Collections.DeleteMe.Children | src/collections.rs:28-30 | the wrapper's children are the value's |
| Collections.KeptIndicesExact | src/vec.rs:27-35 | the kept positions are exactly the unflagged positions, ascending |
| Collections.RetainedSelectsKept | src/vec.rs:27-35 | `retain` keeps the edited elements at exactly the unflagged positions, in their original order |
| Collections.RetainedWithoutRemoval | src/vec.rs:27-35 | with no remove click, the pass keeps length and positions and only edits |
| Collections.RetainedAllFlagged | src/vec.rs:27-35 | when every element is flagged, nothing survives |
| Arrays.LengthSummary | src/array.rs:7-9 | the summary is `[n]`, and it reads back as n |
| Arrays.ArrayHasInner | src/array.rs:11-13 | `[T; N]` has inner records exactly when N is not 0, and so does `&mut [T; N]` (src/array.rs:30-32) |
| Arrays.SliceHasInner | src/array.rs:49-51 | a slice has inner records exactly when it is not empty |
| Arrays.Enumerated | src/array.rs:53-57 | element i is visited once, labelled `[i]` and edited in place; the length never changes |
| Arrays.EnumeratedIdentity | src/array.rs:15-19 | a pass without edits leaves the elements as they were |
| Vecs.Vec.ProbeAsWritten | src/vec.rs:10-19 | the summary is the old length; an add click appends exactly one default at the end; the response is never marked changed |
| Vecs.Vec.Probe | src/small_vec.rs:12-30 | the same push, and the response is marked changed exactly when the sequence grew; the same for smallvec 2 (src/small_vec.rs:103-121) |
| Vecs.Vec.HasInner | src/vec.rs:21-23 | a vector has inner records exactly when it is not empty |
| Vecs.Vec.IterateInner | src/vec.rs:25-36 | every element is visited under the label of its original position; afterwards the vector is exactly the edited unflagged elements, in order; the same for smallvecs (src/small_vec.rs:32-47) |
| Vecs.Vec.FrozenSummary | src/vec.rs:43-45 | the frozen summary reads back as the length |
| Vecs.Vec.FrozenIterateInner | src/vec.rs:51-55 | a frozen vector is enumerated as `[0]`..`[n-1]` and edited in place; nothing is removed; the same for smallvecs (src/small_vec.rs:59-67) |
| Vecs.FrozenOptionVec.Probe | src/small_vec.rs:75-83 | the None/Some selector; switching to Some materialises an empty sequence, and the summary probe never reports a change |
| Vecs.FrozenOptionVec.IterateInner | src/small_vec.rs:85-95 | None visits nothing; Some is enumerated without removal |
| Maps.HashMapProbe.Load | src/map.rs:26-43 | the key state is the stored one, or an empty key without error when none is stored; dirty is false |
| Maps.HashMapProbe.Store | src/map.rs:45-50 | the key state is written back only when dirty |
| Maps.HashMapProbe.NewKeyEdit | src/map.rs:52-67 | an edit replaces the text, clears the error and sets dirty; no edit changes nothing |
| Maps.HashMapProbe.KeyError | src/map.rs:69-75 | the error is raised; when it is already raised, nothing changes, not even dirty |
| Maps.HashMapProbe.KeyAccepted | src/map.rs:77-83 | the key text is cleared; dirty is set only when it was non-empty |
| Maps.AddKey | src/map.rs:103-119 | an add click inserts exactly when the text parses to a key not yet present; a key already present is Occupied, and a parse failure is ParseFailed; the same for hashbrown maps (src/hashbrown.rs:30-47) |
| Maps.KeyStateAfter | src/map.rs:103-123 | after a rejection the error is raised; after an insertion the text is cleared; a text edit later in the frame overrides both |
| Maps.HashMap.Probe | src/map.rs:92-133 | the summary is the old size; only a vacant parsed key changes the map, getting the default value; the key state is stored back; every add click marks the response changed; the same for hashbrown maps (src/hashbrown.rs:18-61) |
| Maps.HashMap.IterateInner | src/map.rs:135-144 | every entry is visited once in table order under its key's text; exactly the flagged entries are removed; the survivors hold their edited values; the same for hashbrown maps (src/hashbrown.rs:63-76) |
| Maps.HashMap.FrozenSummary | src/map.rs:153-155 | the frozen summary reads back as the map's size |
| Maps.HashMap.FrozenIterateInner | src/map.rs:157-161 | every entry is visited and edited; the key set never changes; the same for hashbrown maps (src/hashbrown.rs:89-97) |
| Maps.FrozenOptionMap.Probe | src/map.rs:170-174 | the None/Some selector; switching to Some materialises an empty map, and the summary never reports a change; the same for hashbrown maps (src/hashbrown.rs:106-114) |
| Maps.FrozenOptionMap.IterateInner | src/map.rs:176-182 | None visits nothing; a Some map is visited without removal; the same for hashbrown maps (src/hashbrown.rs:116-126) |
| Maps.AddKeyGrowsByOne | src/map.rs:110-113 | an accepted key grows the map by exactly that key |
| Maps.RejectedKeyKeepsText | src/map.rs:105-117 | a rejected key keeps its text for correction and raises the error |
| Maps.VisitedSpec | src/map.rs:136-143 | after `retain` has visited distinct keys, exactly the flagged visited keys are gone, the other visited keys hold their edited values, and the unvisited entries are untouched |
| Maps.VisitedAll | src/map.rs:135-144 | a pass over every key in the table's order leaves exactly the edited unflagged entries |
| Maps.RetainedMapKeys | src/map.rs:136-143 | the surviving keys are exactly the unflagged ones |
| Nums.ClampOf | src/num.rs:20-62 | `..` clamps to [MIN, MAX], `start..` to [start, MAX], `..=end` to [MIN, end] and `start..=end` to its own bounds; on the type's values, the clamp holds exactly what the range contains |
| Nums.HintText | src/num.rs:26 | the hint `lo..=hi` reads back as exactly the clamp bounds; the same for the other range forms (src/num.rs:37, 48, 59) |
| Nums.NumberEditor | src/num.rs:13-62 | a bare number has no clamp and no hint; a ranged number is clamped by `ClampOf`, and its hint names those bounds |
| Nums.ProbeOptionNumber | src/num.rs:64-106 | the None/Some selector starting from 0 (`SelectorOutcome`); an editor is drawn exactly when the value ends as Some (src/option.rs:57-59), and then it has the clamp and hint of `NumberEditor` |
| Customize.ProbeRange | src/lib.rs:304-313 | `probe_range` keeps the range and leaves the step unset |
| Customize.ProbeRangeStep | src/lib.rs:316-325 | `probe_range_step` keeps the range and the step |
| Customize.ProbeStep | src/lib.rs:328-340 | `probe_step` uses the full range with the given step |
| Customize.ProbeStepClampsToType | src/lib.rs:328-340 | a step over the full range clamps an integer to the whole type |
| Derive.MakeName | proc/src/probe.rs:225-238 | an explicit name wins; otherwise the renamed ident when `rename_all` is given, else the ident itself; an unnamed field without a name gets "" |
| Derive.FieldError | proc/src/probe.rs:243-255 | a skipped field with a name is rejected as "Cannot name skipped field"; with a probe kind, by that kind's message; otherwise it is accepted |
| Derive.FieldName | proc/src/probe.rs:240-261 | the field's diagnostic, nothing for a skipped field, or its label |
| Derive.FieldProbe | proc/src/probe.rs:263-345 | the field's diagnostic, nothing for a skipped field, or its probe kind bound to its original position |
| Derive.KeptFieldsExact | proc/src/probe.rs:613-618 | the kept positions are exactly the non-skipped fields, ascending |
| Derive.CollectProbesSpec | proc/src/probe.rs:613-618 | the probe pass fails exactly with the first offending field's diagnostic; otherwise it gives one probe per kept field, in order, bound to the field's original position |
| Derive.CollectNamesSpec | proc/src/probe.rs:653-657 | the name pass fails exactly like the probe pass; otherwise it labels the same kept fields by `make_name` |
| Derive.CollectProbes | proc/src/probe.rs:613-618 | the probes bind distinct positions at or after the start, ascending; the same for variants (proc/src/probe.rs:538-549) |
| Derive.CollectNames | proc/src/probe.rs:653-657 | each field gives at most one name; its failures and labels are those `CollectNamesSpec` states |
| Derive.RecordsOf | proc/src/probe.rs:538-551 | the records fail exactly with the first offending field's diagnostic; otherwise one record per kept field, in order, labelled by `make_name` and bound to the field's original position; the same for structs (proc/src/probe.rs:653-677) |
| Derive.TransparentField | proc/src/probe.rs:459-464 | the first offending field's diagnostic, else the arity diagnostic unless exactly one field is kept; on success the probe of that field at its original position; the same in proc/src/probe.rs:523-528 and 620-626 |
| Derive.NamesAndProbesAgree | proc/src/probe.rs:551 | names and probes succeed together and have equal length |
| Derive.VariantInlineProbe | proc/src/probe.rs:425-484 | a plain variant has no inline probe and cannot fail here; a transparent one fails with its fields' diagnostic or the arity diagnostic, else forwards to its single kept field; `InlinePass` and `DeriveEnum` carry it over all variants |
| Derive.VariantIterateInner | proc/src/probe.rs:486-561 | a transparent variant forwards to its single kept field, or fails as in the inline arm; a plain one fails with the first offending field's diagnostic, else has one record per kept field as `RecordsOf` labels them; `IteratePass` and `DeriveEnum` carry it over all variants |
| Derive.VariantLabel | proc/src/probe.rs:347-369 | a variant is labelled by its `name`, else by its ident, renamed when `rename_all` is given |
| Derive.InlinePass | proc/src/probe.rs:695-699 | the pass fails exactly when some variant's inline arm fails, with the first such diagnostic; otherwise entry i is variant i's inline arm |
| Derive.IteratePass | proc/src/probe.rs:701-705 | the pass fails exactly when some variant's iterate arm fails, with the first such diagnostic; otherwise entry i is variant i's iterate arm |
| Derive.EffectiveVariantsStyle | proc/src/probe.rs:707-717 | without `tags` the runtime style's `variants` setting is used; `tags inlined` and `tags combobox` fix the style |
| Derive.StyleOf | proc/src/probe.rs:707-717 | no `tags` defers to `style.variants`; `tags inlined` fixes Inlined; `tags combobox` fixes ComboBox |
| Derive.DeriveImpl | proc/src/probe.rs:563-769 | unions and tagged structs are rejected; a success is an enum implementation exactly for an enum, with the `tags` style and one entry per variant titled by its label, and a transparent struct exactly when the struct is transparent; the full results are in `DeriveStruct` and `DeriveEnum` |
| Derive.DeriveRejects | proc/src/probe.rs:764-767 | a union is rejected, and so is a struct with `tags` (proc/src/probe.rs:586-591) |
| Derive.DeriveStruct | proc/src/probe.rs:585-680 | a struct gives the first offending field's diagnostic; a transparent struct forwards to its single kept field, or is rejected when it does not have exactly one; otherwise one record per kept field, in order, labelled by `make_name` and bound to the field's original position |
| Derive.DeriveRecordStruct | proc/src/probe.rs:650-680 | the records that label the kept fields of a valid plain struct are exactly the ones it derives to |
| Derive.DeriveEnum | proc/src/probe.rs:682-762 | an enum fails with the first variant's inline diagnostic, else the first iterate diagnostic; otherwise entry i is variant i's label, inline arm and iterate arm, under the `tags` style |
| Derive.TransparentVariantArity | proc/src/probe.rs:425-475 | a transparent variant's inline probe and its forwarded records are its single kept field; with any other count both passes are rejected |
| Derive.DeriveEnumStyle | proc/src/probe.rs:682-762 | a derived enum selects its style as `tags` says, and an enum-level `transparent` changes nothing |
| Derive.TransparentErrorReportedFirst | proc/src/probe.rs:695-705 | the inline pass runs over all variants first, so a later transparent variant's arity error is reported before an earlier variant's field error |
| Derive.AttributeTestStruct | src/lib.rs:427-471 | the attribute test's fourteen-field struct derives to thirteen records: the skipped field leaves none, `name` beats `rename_all`, and every other field keeps its probe kind and its original position 1 to 13 |
| Derive.AttributeTestEnum | src/lib.rs:473-486 | for the attribute test's enum, the style is ComboBox, "renamed" labels A, and transparent B forwards to its second field |
| Derive.ProbeVariants | proc/src/probe.rs:407-411 | labels are drawn in order; a click on a variant other than the current one replaces the value with that variant's defaults; the result is `SwitchOutcome` |
| Derive.SingleClickSwitch | proc/src/probe.rs:380-411 | one click on an inactive variant switches to its all-default payload; one click on the active variant keeps the value |

## Left out

- Drawing and layout are left out: rects, clip rects, child uis, frames, icons, separators, `animate_bool` easing and `request_repaint`. Clicks, text edits, openness in [0, 1], label widths and table heights are inputs of a frame.
- `inner_value_ui` and the value column of `show_header` are left out, because they only place the value's probe. Its edits belong to the adapters.
- Widget.Show: returns no response. The flag of a value without inner records is the adapter's own, and the nested flags are dropped by the code; see above.
- The `&mut P` and `Box<P>` impls (lib.rs:207-243) are left out. They forward to `P` unchanged, which is the identity on model values.
- `probe_with`, `probe_as` and `probe_fn`/`EguiProbeFn` (lib.rs:244-262, 286-301) are left out. They only apply the caller's closure or constructor. The derive model keeps the kind and the expression text of `with`/`as`.
- `probe_multiline`, `probe_toggle_switch`, `probe_frozen` and the colour constructors (lib.rs:342-396) are left out as functions, and so is `angle` (lib.rs:265-268), an `f32` editor. They only wrap the borrowed value. The derive model records which one a field uses.
- The `Option<T>` impl of `probe` (option.rs:8-12) is `Options.OptionProbeWith` with the type's default passed as `default`. It has no member of its own.
- `EguiProbeFrozen` itself is not a class. Its forms are the `Frozen…` members of `Vec`, `HashMap` and the `FrozenOption…` classes.
- Floating point is left out. widget.rs uses `f32` widths and heights, modelled as `real`. The `f32`/`f64` number editors in num.rs are not modelled.
- `isize` and `usize` are taken as 64 bits wide.
- DragValue's own clamping and dragging are left out. `Nums` states the clamp range the editor is given. `num.rs` calls `option_probe_with` without a default; the model passes 0, the integers' default. The closure that draws the inner editor ends in `ui.weak(...);` (src/num.rs:70), so as written it yields `()`, while src/option.rs:57-59 reads a change flag from the closure's result. The two files come from different versions. The model takes the inner change flag from the `edit` parameter, because the code shown does not fix it.
- Case conversion (`RenameCase::rename`), `Display` and `FromStr` of map keys are uninterpreted function parameters.
- Attribute parsing and its syntax errors are left out, and so is token emission. The where-clause splicing (probe.rs:570-582) only extends the impl's bounds and is left out too.
- `variant_selected` is the combobox's selected text. It has the same label as `variant_probe` (Derive.VariantLabel). Which combobox entries are drawn is a drawing matter.
- HashMap iteration order is an input (`order`): it is an arbitrary listing of the keys, each exactly once.
- Vecs.Vec.IterateInner: builds the survivors in a fresh sequence instead of shifting them in place as `retain_mut` does; the result is the same.
- The smallvec2 impls (small_vec.rs:98-187) are the same code as the smallvec1 ones, and share the `Vecs.Vec` members.
- rwlock.rs, color.rs, algebra.rs, text.rs, ui.rs and the examples are not part of this model.
- Egui.TempData: egui evicts temporary data it no longer needs; the model never drops an entry.

## Findings

| source | as written | input that shows it | evidently intended | confidence | as-written member | corrected member |
|---|---|---|---|---|---|---|
| src/vec.rs:10-19 | `Vec::probe` pushes `T::default()` on an add click but never marks the response changed | any vector with the add button clicked: the vector grows by one element, and the response reports no change | mark the response changed when an element was pushed, as the smallvec impls do (small_vec.rs:25-27) and the map impls do (map.rs:128-130) | medium; not executed | Vecs.Vec.ProbeAsWritten | Vecs.Vec.Probe |
