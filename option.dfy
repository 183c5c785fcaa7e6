/**
 * The None/Some selector that every optional value is edited through, and
 * the wrapper that supplies its own default for the "Some" case.
 */
module Options {
  import opened Wrappers
  import opened EguiProbe

  /** A value after an editor ran on it, and whether the editor reported a change. */
  datatype Edited<T> = Edited(value: T, changed: bool)

  /**
   * What the selector promises: the row ends on "Some" exactly when "Some" was
   * clicked, or the value was already Some and "None" was not clicked; a Some
   * result is the inner editor's result on the old payload (or on `default`
   * when the value just became Some); and the change flag is set exactly when
   * the variant switched or the inner editor reported a change.
   */
  ghost predicate SelectorOutcome<T>(value: Option<T>, default: T, noneClicked: bool, someClicked: bool,
                                     probe: T -> Edited<T>, r: Option<T>, changed: bool)
  {
    && (r.Some? <==> someClicked || (!noneClicked && value.Some?))
    && (r.Some? ==> r.value == probe(value.GetOr(default)).value)
    && (changed <==> r.Some? != value.Some? || (r.Some? && probe(value.GetOr(default)).changed))
  }

  /**
   * `option_probe_with`: the "None" label, then the "Some" label (so a click
   * on "Some" decides when both were clicked), then the variant switch
   * (materialising `default` or dropping the payload), then the inner editor
   * on whatever payload is left.
   */
  method OptionProbeWith<T>(value: Option<T>, default: T, noneClicked: bool, someClicked: bool, probe: T -> Edited<T>)
    returns (r: Option<T>, changed: bool)
    ensures SelectorOutcome(value, default, noneClicked, someClicked, probe, r, changed)
  {
    changed := false;
    r := value;
    var checked := r.Some?;
    if noneClicked {
      checked := false;
    }
    if someClicked {
      checked := true;
    }
    if checked && r.None? {
      r := Some(default);
      changed := true;
    } else if !checked && r.Some? {
      r := None;
      changed := true;
    }
    if r.Some? {
      var e := probe(r.value);
      r := Some(e.value);
      changed := changed || e.changed;
    }
  }

  /** Both labels clicked in one frame: "Some" wins, and a None value becomes the edited default. */
  lemma BothClickedGivesSome<T>(value: Option<T>, default: T, probe: T -> Edited<T>, r: Option<T>, changed: bool)
    requires SelectorOutcome(value, default, true, true, probe, r, changed)
    ensures r.Some? && (value.None? ==> r == Some(probe(default).value) && changed)
  {
  }

  /** With no click the variant stays; a None value stays None and reports nothing. */
  lemma NoClickKeepsVariant<T>(value: Option<T>, default: T, probe: T -> Edited<T>, r: Option<T>, changed: bool)
    requires SelectorOutcome(value, default, false, false, probe, r, changed)
    ensures r.Some? == value.Some?
    ensures value.None? ==> r == None && !changed
    ensures value.Some? ==> r == Some(probe(value.value).value) && changed == probe(value.value).changed
  {
  }

  /** `iterate_inner` of an optional value: nothing for None, the payload's records for Some. */
  function OptionChildren<T>(value: Option<T>, inner: T -> seq<Child>): (r: seq<Child>)
    ensures value.None? ==> r == DefaultIterateInner()
    ensures value.Some? ==> r == inner(value.value)
  {
    match value
    case None => []
    case Some(v) => inner(v)
  }

  /** `EguiProbeDefault`: an optional value edited with a caller-supplied default for "Some". */
  class ProbeDefault<T> {
    var value: Option<T>
    const default: T

    constructor (value: Option<T>, default: T)
      ensures this.value == value && this.default == default
    {
      this.value := value;
      this.default := default;
    }

    method Probe(noneClicked: bool, someClicked: bool, probe: T -> Edited<T>) returns (changed: bool)
      modifies this
      ensures SelectorOutcome(old(value), default, noneClicked, someClicked, probe, value, changed)
    {
      value, changed := OptionProbeWith(value, default, noneClicked, someClicked, probe);
    }

    function Children(inner: T -> seq<Child>): (r: seq<Child>)
      reads this
      ensures value.None? ==> r == []
      ensures value.Some? ==> r == inner(value.value)
    {
      OptionChildren(value, inner)
    }
  }

  /** Switching an empty `EguiProbeDefault` to Some materialises the wrapper's own default, not the type's. */
  lemma ProbeDefaultUsesOwnDefault<T>(default: T, probe: T -> Edited<T>, r: Option<T>, changed: bool)
    requires SelectorOutcome(None, default, false, true, probe, r, changed)
    ensures r == Some(probe(default).value) && changed
  {
  }
}
