/**
 * The recursive renderer's bookkeeping: per-node header state kept in the
 * context's temporary data (open flag and last measured body height), the
 * label-column negotiator, and the walk of `show` / `show_table` /
 * `show_header` that decides which ids are loaded, which nodes are recursed
 * into, and what is written back at the end of the frame.
 *
 * One call of `Show` is one frame. What egui reports during the frame (clicks
 * on collapse buttons, the animated openness, measured widths and heights) is
 * the `FrameInput`.
 */
module Widget {
  import opened Egui
  import opened EguiProbe

  datatype HeaderState = HeaderState(open: bool, bodyHeight: real)

  /** What `load` uses for an id the store has never seen. */
  const DefaultHeader: HeaderState := HeaderState(false, 0.0)

  /** `set_body_height` ignores changes of this size or less. */
  const HeightEpsilon: real := 0.001

  datatype LayoutState = LayoutState(labelsWidth: real)

  const DefaultLayout: LayoutState := LayoutState(0.0)

  /** What egui reports during one frame, per persistent id. */
  datatype FrameInput = FrameInput(
    clicked: Id -> bool,      // the collapse button of the header with this id was clicked
    openness: Id -> real,     // `animate_bool(id, open)` for the header with this id
    labelWidth: Id -> real,   // measured width of the label column of the row with this id
    tableHeight: Id -> real)  // measured height of the table drawn under the header with this id

  ghost predicate ValidInput(inp: FrameInput) {
    forall id :: 0.0 <= inp.openness(id) <= 1.0
  }

  function Abs(x: real): real {
    if x < 0.0 then -x else x
  }

  function Max(a: real, b: real): real {
    if a < b then b else a
  }

  function Loaded(m: map<Id, HeaderState>, id: Id): HeaderState {
    if id in m then m[id] else DefaultHeader
  }

  function LoadedLayout(m: map<Id, LayoutState>, id: Id): LayoutState {
    if id in m then m[id] else DefaultLayout
  }

  function Toggled(s: HeaderState): HeaderState {
    s.(open := !s.open)
  }

  predicate HeightMoved(s: HeaderState, height: real) {
    Abs(s.bodyHeight - height) > HeightEpsilon
  }

  function WithBodyHeight(s: HeaderState, height: real): HeaderState {
    if HeightMoved(s, height) then s.(bodyHeight := height) else s
  }

  lemma ToggleTwiceRestores(s: HeaderState)
    ensures Toggled(Toggled(s)) == s && Toggled(s).open != s.open
  {
  }

  class ProbeHeader {
    const id: Id
    var state: HeaderState
    var dirty: bool
    const openness: real

    /** `ProbeHeader::load`: the stored state (inserting the default), clean, with this frame's openness. */
    constructor Load(store: TempData<HeaderState>, id: Id, openness: real)
      modifies store
      ensures this.id == id && this.openness == openness
      ensures state == Loaded(old(store.entries), id) && !dirty
      ensures store.entries == old(store.entries)[id := state]
    {
      var s := store.GetTempMutOr(id, DefaultHeader);
      this.id := id;
      this.openness := openness;
      state := s;
      dirty := false;
    }

    /** Writes the state back, only when something changed during the frame. */
    method Store(store: TempData<HeaderState>)
      modifies store
      ensures store.entries == if dirty then old(store.entries)[id := state] else old(store.entries)
    {
      if dirty {
        store.InsertTemp(id, state);
      }
    }

    method Toggle()
      modifies this
      ensures state == Toggled(old(state)) && dirty
    {
      state := state.(open := !state.open);
      dirty := true;
    }

    method SetBodyHeight(height: real)
      modifies this
      ensures state == WithBodyHeight(old(state), height)
      ensures dirty == (old(dirty) || HeightMoved(old(state), height))
    {
      if Abs(state.bodyHeight - height) > HeightEpsilon {
        state := state.(bodyHeight := height);
        dirty := true;
      }
    }

    /** How far the body is pulled up while it slides open or closed. */
    function BodyShift(): (shift: real)
      reads this
      requires 0.0 <= openness <= 1.0
      ensures openness == 1.0 ==> shift == 0.0
      ensures openness == 0.0 ==> shift == state.bodyHeight
      ensures state.bodyHeight >= 0.0 ==> 0.0 <= shift <= state.bodyHeight
    {
      var shift := (1.0 - openness) * state.bodyHeight;
      assert state.bodyHeight >= 0.0 ==> 0.0 <= shift by {
        if state.bodyHeight >= 0.0 {
          NonNegativeProduct(1.0 - openness, state.bodyHeight);
        }
      }
      assert state.bodyHeight >= 0.0 ==> shift <= state.bodyHeight by {
        if state.bodyHeight >= 0.0 {
          NonNegativeProduct(openness, state.bodyHeight);
          assert shift == state.bodyHeight - openness * state.bodyHeight;
        }
      }
      shift
    }

    method CollapseButton(clicked: bool)
      modifies this
      ensures state == (if clicked then Toggled(old(state)) else old(state))
      ensures dirty == (old(dirty) || clicked)
    {
      if clicked {
        Toggle();
      }
    }
  }

  lemma NonNegativeProduct(a: real, b: real)
    requires a >= 0.0 && b >= 0.0
    ensures a * b >= 0.0
  {
  }

  class ProbeLayout {
    const id: Id
    var state: LayoutState
    var dirty: bool
    var minLabelsWidth: real

    /** `ProbeLayout::load`: last pass's width (inserting the default) and a fresh minimum of 0. */
    constructor Load(store: TempData<LayoutState>, id: Id)
      modifies store
      ensures this.id == id && state == LoadedLayout(old(store.entries), id)
      ensures !dirty && minLabelsWidth == 0.0
      ensures store.entries == old(store.entries)[id := state]
    {
      var s := store.GetTempMutOr(id, DefaultLayout);
      this.id := id;
      state := s;
      dirty := false;
      minLabelsWidth := 0.0;
    }

    /** End of pass: a grown minimum overwrites the stored width; otherwise the store is left alone. */
    method Store(store: TempData<LayoutState>)
      modifies this, store
      ensures old(dirty) ==> state == LayoutState(old(minLabelsWidth)) && store.entries == old(store.entries)[id := state]
      ensures !old(dirty) ==> state == old(state) && store.entries == old(store.entries)
      ensures dirty == old(dirty) && minLabelsWidth == old(minLabelsWidth)
    {
      if dirty {
        state := state.(labelsWidth := minLabelsWidth);
        store.InsertTemp(id, state);
      }
    }

    method BumpLabelsWidth(width: real)
      modifies this
      ensures minLabelsWidth == Max(old(minLabelsWidth), width)
      ensures dirty == (old(dirty) || old(minLabelsWidth) < width)
      ensures state == old(state)
    {
      if minLabelsWidth < width {
        minLabelsWidth := width;
        dirty := true;
      }
    }

    /**
     * Lays out one label column: it is drawn `labels_width` wide (the width
     * negotiated in the previous pass), and its measured width only bumps the
     * minimum for the next pass.
     */
    method InnerLabelUi(indent: nat, measured: real) returns (column: real)
      modifies this
      ensures column == state.labelsWidth
      ensures minLabelsWidth == Max(old(minLabelsWidth), measured)
      ensures dirty == (old(dirty) || old(minLabelsWidth) < measured)
      ensures state == old(state)
    {
      column := state.labelsWidth;
      BumpLabelsWidth(measured);
    }
  }

  // ---------------------------------------------------------------------
  // The frame, as functions of the previous frame's store and this frame's input.

  /** The state a loaded header ends the frame with: toggled if clicked, and re-measured if its body was drawn. */
  function HeaderAfter(s: HeaderState, id: Id, inp: FrameInput): HeaderState {
    var s1 := if inp.clicked(id) then Toggled(s) else s;
    if inp.openness(id) > 0.0 then WithBodyHeight(s1, inp.tableHeight(id)) else s1
  }

  predicate DirtyAfter(s: HeaderState, id: Id, inp: FrameInput) {
    var s1 := if inp.clicked(id) then Toggled(s) else s;
    inp.clicked(id) || (inp.openness(id) > 0.0 && HeightMoved(s1, inp.tableHeight(id)))
  }

  /** Header store after a node with header `hid` and table `table` is processed. */
  ghost function NodeHeaders(n: Node, hid: Id, table: Id, m: map<Id, HeaderState>, inp: FrameInput): map<Id, HeaderState>
    decreases n, 3
  {
    var s := Loaded(m, hid);
    var m1 := m[hid := s];
    var m2 := if inp.openness(hid) > 0.0 then TableHeaders(n, table, m1, inp) else m1;
    if DirtyAfter(s, hid, inp) then m2[hid := HeaderAfter(s, hid, inp)] else m2
  }

  ghost function TableHeaders(n: Node, table: Id, m: map<Id, HeaderState>, inp: FrameInput): map<Id, HeaderState>
    decreases n, 2
  {
    ChildrenHeaders(n, |n.children|, table, m, inp)
  }

  /** The first `k` children of `n`, the k-th with id `table + [Index(k)]`. */
  ghost function ChildrenHeaders(n: Node, k: nat, table: Id, m: map<Id, HeaderState>, inp: FrameInput): map<Id, HeaderState>
    requires k <= |n.children|
    decreases n, 1, k
  {
    if k == 0 then m
    else ChildHeaders(n.children[k - 1].node, table + [Index(k - 1)], ChildrenHeaders(n, k - 1, table, m, inp), inp)
  }

  /** A child gets a header (and a table under the same id) only if it has inner records. */
  ghost function ChildHeaders(c: Node, id: Id, m: map<Id, HeaderState>, inp: FrameInput): map<Id, HeaderState>
    decreases c, 4
  {
    if c.hasInner then NodeHeaders(c, id, id, m, inp) else m
  }

  ghost function RootHeaderId(base: Id): Id { base + [Name("probe_header")] }

  ghost function RootTableId(base: Id): Id { base + [Name("table")] }

  ghost function RootLayoutId(base: Id): Id { base + [Name("probe_layout")] }

  ghost function ShowHeaders(root: Node, base: Id, m: map<Id, HeaderState>, inp: FrameInput): map<Id, HeaderState> {
    if root.hasInner then NodeHeaders(root, RootHeaderId(base), RootTableId(base), m, inp) else m
  }

  /** The labels-width minimum after a node's table (if drawn) is processed. */
  ghost function NodeWidth(n: Node, hid: Id, table: Id, w: real, inp: FrameInput): real
    decreases n, 3
  {
    if inp.openness(hid) > 0.0 then TableWidth(n, table, w, inp) else w
  }

  ghost function TableWidth(n: Node, table: Id, w: real, inp: FrameInput): real
    decreases n, 2
  {
    ChildrenWidth(n, |n.children|, table, w, inp)
  }

  ghost function ChildrenWidth(n: Node, k: nat, table: Id, w: real, inp: FrameInput): real
    requires k <= |n.children|
    decreases n, 1, k
  {
    if k == 0 then w
    else ChildWidth(n.children[k - 1].node, table + [Index(k - 1)], ChildrenWidth(n, k - 1, table, w, inp), inp)
  }

  /** Every child row bumps the minimum with its label; an open child with inner records then adds its own rows. */
  ghost function ChildWidth(c: Node, id: Id, w: real, inp: FrameInput): real
    decreases c, 4
  {
    var w1 := Max(w, inp.labelWidth(id));
    if c.hasInner then NodeWidth(c, id, id, w1, inp) else w1
  }

  ghost function ShowLayouts(root: Node, base: Id, lm: map<Id, LayoutState>, inp: FrameInput): map<Id, LayoutState> {
    if root.hasInner && inp.openness(RootHeaderId(base)) > 0.0 then
      var lid := RootLayoutId(base);
      var lm1 := lm[lid := LoadedLayout(lm, lid)];
      var w := TableWidth(root, RootTableId(base), 0.0, inp);
      if 0.0 < w then lm1[lid := LayoutState(w)] else lm1
    else lm
  }

  // ---------------------------------------------------------------------
  // The renderer.

  method ShowHeader(title: string, child: Node, layout: ProbeLayout, indent: nat,
                    headers: TempData<HeaderState>, id: Id, inp: FrameInput)
    returns (header: ProbeHeader?)
    modifies layout, headers
    ensures header == null <==> !child.hasInner
    ensures header != null ==>
      && fresh(header) && header.id == id && header.openness == inp.openness(id)
      && header.state == (if inp.clicked(id) then Toggled(Loaded(old(headers.entries), id)) else Loaded(old(headers.entries), id))
      && header.dirty == inp.clicked(id)
    ensures headers.entries == if child.hasInner then old(headers.entries)[id := Loaded(old(headers.entries), id)] else old(headers.entries)
    ensures layout.minLabelsWidth == Max(old(layout.minLabelsWidth), inp.labelWidth(id))
    ensures layout.dirty == (old(layout.dirty) || old(layout.minLabelsWidth) < inp.labelWidth(id))
    ensures layout.state == old(layout.state)
  {
    header := null;
    if child.hasInner {
      header := new ProbeHeader.Load(headers, id, inp.openness(id));
    }
    // Label column: the collapse button (if any), then the label.
    if header != null {
      header.CollapseButton(inp.clicked(id));
    }
    var column := layout.InnerLabelUi(indent, inp.labelWidth(id));
    // Value column: the value's own probe; its edits belong to the value's adapter.
  }

  method ShowTable(node: Node, header: ProbeHeader, layout: ProbeLayout, indent: nat,
                   headers: TempData<HeaderState>, table: Id, inp: FrameInput)
    modifies header, layout, headers
    ensures headers.entries == TableHeaders(node, table, old(headers.entries), inp)
    ensures layout.minLabelsWidth == TableWidth(node, table, old(layout.minLabelsWidth), inp)
    ensures old(layout.minLabelsWidth) <= layout.minLabelsWidth
    ensures layout.dirty == (old(layout.dirty) || old(layout.minLabelsWidth) < layout.minLabelsWidth)
    ensures layout.state == old(layout.state)
    ensures header.state == WithBodyHeight(old(header.state), inp.tableHeight(header.id))
    ensures header.dirty == (old(header.dirty) || HeightMoved(old(header.state), inp.tableHeight(header.id)))
    decreases node
  {
    var idx := 0;
    while idx < |node.children|
      invariant 0 <= idx <= |node.children|
      invariant headers.entries == ChildrenHeaders(node, idx, table, old(headers.entries), inp)
      invariant layout.minLabelsWidth == ChildrenWidth(node, idx, table, old(layout.minLabelsWidth), inp)
      invariant old(layout.minLabelsWidth) <= layout.minLabelsWidth
      invariant layout.dirty == (old(layout.dirty) || old(layout.minLabelsWidth) < layout.minLabelsWidth)
      invariant layout.state == old(layout.state)
      invariant header.state == old(header.state) && header.dirty == old(header.dirty)
    {
      var child := node.children[idx];
      var id := table + [Index(idx)];
      ghost var m0, w0 := headers.entries, layout.minLabelsWidth;
      var h := ShowHeader(child.title, child.node, layout, indent + 1, headers, id, inp);
      if h != null {
        if h.openness > 0.0 {
          ShowTable(child.node, h, layout, indent + 1, headers, id, inp);
        }
        h.Store(headers);
      }
      assert headers.entries == ChildHeaders(child.node, id, m0, inp);
      assert layout.minLabelsWidth == ChildWidth(child.node, id, w0, inp);
      idx := idx + 1;
    }
    header.SetBodyHeight(inp.tableHeight(header.id));
  }

  /** `Probe::show`: one frame of the whole widget for the value `root` under the id `base`. */
  method Show(root: Node, base: Id, headers: TempData<HeaderState>, layouts: TempData<LayoutState>, inp: FrameInput)
    requires ValidInput(inp)
    modifies headers, layouts
    ensures headers.entries == ShowHeaders(root, base, old(headers.entries), inp)
    ensures layouts.entries == ShowLayouts(root, base, old(layouts.entries), inp)
  {
    if !root.hasInner {
      // Only the value's own probe is drawn: no header, no table, nothing stored.
      return;
    }
    var hid := base + [Name("probe_header")];
    var header := new ProbeHeader.Load(headers, hid, inp.openness(hid));
    header.CollapseButton(inp.clicked(hid));
    if header.openness > 0.0 && root.hasInner {
      var layout := new ProbeLayout.Load(layouts, base + [Name("probe_layout")]);
      ShowTable(root, header, layout, 0, headers, base + [Name("table")], inp);
      layout.Store(layouts);
    }
    header.Store(headers);
  }
}
