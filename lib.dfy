/** The style record that every probe receives, with its defaults and button texts. */
module Styles {
  import opened Wrappers

  datatype BooleanStyle = Checkbox | ToggleSwitch

  datatype VariantsStyle = Inlined | ComboBox

  datatype Style = Style(
    boolean: BooleanStyle,
    variants: VariantsStyle,
    fieldIndentSize: Option<real>,
    addButtonChar: Option<char>,
    removeButtonChar: Option<char>)

  function DefaultBooleanStyle(): (s: BooleanStyle)
    ensures s == Checkbox
  {
    Checkbox
  }

  function DefaultVariantsStyle(): (s: VariantsStyle)
    ensures s == ComboBox
  {
    ComboBox
  }

  /** `Style::default()`: default boolean and variant styles, no indent override, no custom button characters. */
  function DefaultStyle(): (s: Style)
    ensures s.boolean == Checkbox && s.variants == ComboBox
    ensures s.fieldIndentSize == None && s.addButtonChar == None && s.removeButtonChar == None
  {
    Style(DefaultBooleanStyle(), DefaultVariantsStyle(), None, None, None)
  }

  /** Text of the collections' add button: the configured character, else "+". */
  function AddButtonText(style: Style): (r: string)
    ensures |r| == 1
    ensures style.addButtonChar.Some? ==> r[0] == style.addButtonChar.value
    ensures style.addButtonChar.None? ==> r == "+"
  {
    [style.addButtonChar.GetOr('+')]
  }

  /** Text of the remove button beside each element: the configured character, else "-". */
  function RemoveButtonText(style: Style): (r: string)
    ensures |r| == 1
    ensures style.removeButtonChar.Some? ==> r[0] == style.removeButtonChar.value
    ensures style.removeButtonChar.None? ==> r == "-"
  {
    [style.removeButtonChar.GetOr('-')]
  }
}

/**
 * The visitor contract as the renderer sees it: whether a value has inner
 * records worth a collapsible header, and the labelled children that its
 * `iterate_inner` hands to the callback, in order.
 */
module EguiProbe {

  datatype Node = Node(hasInner: bool, children: seq<Child>)

  datatype Child = Child(title: string, node: Node)

  /** The trait's default `iterate_inner` ignores the callback: a plain value has no children. */
  function DefaultIterateInner(): (r: seq<Child>)
    ensures |r| == 0
  {
    []
  }
}
