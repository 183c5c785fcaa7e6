/**
 * What one frame of the renderer does to the header store and the layout
 * store, stated against independent descriptions: the set of ids a frame
 * visits, the header state each visited id ends with, and the widest row.
 */
module WidgetFacts {
  import opened Egui
  import opened EguiProbe
  import opened Widget

  /** `r` lies strictly below `p` in the id tree. */
  predicate StrictlyExtends(r: Id, p: Id) {
    |r| > |p| && r[..|p|] == p
  }

  // ---------------------------------------------------------------------
  // Which header ids a frame loads.

  ghost function NodeIds(n: Node, hid: Id, table: Id, inp: FrameInput): set<Id>
    decreases n, 3
  {
    {hid} + (if inp.openness(hid) > 0.0 then TableIds(n, table, inp) else {})
  }

  ghost function TableIds(n: Node, table: Id, inp: FrameInput): set<Id>
    decreases n, 2
  {
    ChildrenIds(n, |n.children|, table, inp)
  }

  ghost function ChildrenIds(n: Node, k: nat, table: Id, inp: FrameInput): set<Id>
    requires k <= |n.children|
    decreases n, 1, k
  {
    if k == 0 then {}
    else ChildrenIds(n, k - 1, table, inp) + ChildIds(n.children[k - 1].node, table + [Index(k - 1)], inp)
  }

  ghost function ChildIds(c: Node, id: Id, inp: FrameInput): set<Id>
    decreases c, 4
  {
    if c.hasInner then NodeIds(c, id, id, inp) else {}
  }

  ghost function ShowIds(root: Node, base: Id, inp: FrameInput): set<Id> {
    if root.hasInner then NodeIds(root, RootHeaderId(base), RootTableId(base), inp) else {}
  }

  /** The header state a visited id ends the frame with, from the previous frame's store alone. */
  ghost function FinalHeader(m: map<Id, HeaderState>, id: Id, inp: FrameInput): HeaderState {
    HeaderAfter(Loaded(m, id), id, inp)
  }

  ghost predicate FinalOn(r: map<Id, HeaderState>, m: map<Id, HeaderState>, ids: set<Id>, inp: FrameInput) {
    forall id :: id in ids ==> id in r && r[id] == FinalHeader(m, id, inp)
  }

  ghost predicate AgreesOutside(r: map<Id, HeaderState>, m: map<Id, HeaderState>, ids: set<Id>) {
    forall id :: id !in ids ==> (id in r <==> id in m) && (id in m ==> r[id] == m[id])
  }

  // ---------------------------------------------------------------------
  // Where the visited ids lie.

  lemma {:induction false} NodeIdsUnder(n: Node, hid: Id, table: Id, inp: FrameInput)
    ensures forall r :: r in NodeIds(n, hid, table, inp) ==> r == hid || StrictlyExtends(r, table)
    decreases n, 3
  {
    if inp.openness(hid) > 0.0 {
      TableIdsUnder(n, table, inp);
    }
  }

  lemma {:induction false} TableIdsUnder(n: Node, table: Id, inp: FrameInput)
    ensures forall r :: r in TableIds(n, table, inp) ==> StrictlyExtends(r, table)
    decreases n, 2
  {
    ChildrenIdsUnder(n, |n.children|, table, inp);
  }

  /** Ids visited under the first `k` children of a table carry one of the indices `0 .. k-1` right below it. */
  lemma {:induction false} ChildrenIdsUnder(n: Node, k: nat, table: Id, inp: FrameInput)
    requires k <= |n.children|
    ensures forall r: Id :: r in ChildrenIds(n, k, table, inp) ==>
      StrictlyExtends(r, table) && r[|table|].Index? && r[|table|].index < k
    decreases n, 1, k
  {
    if k > 0 {
      ChildrenIdsUnder(n, k - 1, table, inp);
      ChildSubtreeUnder(n.children[k - 1].node, table, k - 1, inp);
    }
  }

  /** Ids visited under the child at index `j` of a table carry `Index(j)` right below it. */
  lemma {:induction false} ChildSubtreeUnder(c: Node, table: Id, j: nat, inp: FrameInput)
    ensures forall r :: r in ChildIds(c, table + [Index(j)], inp) ==>
      StrictlyExtends(r, table) && r[|table|] == Index(j)
    decreases c, 5
  {
    var q := table + [Index(j)];
    ChildIdsUnder(c, q, inp);
    forall r | r in ChildIds(c, q, inp)
      ensures StrictlyExtends(r, table) && r[|table|] == Index(j)
    {
      assert r[..|q|] == q;
      assert r[..|table|] == r[..|q|][..|table|];
      assert r[|table|] == r[..|q|][|table|];
    }
  }

  lemma {:induction false} ChildIdsUnder(c: Node, id: Id, inp: FrameInput)
    ensures forall r :: r in ChildIds(c, id, inp) ==> Extends(r, id)
    decreases c, 4
  {
    if c.hasInner {
      NodeIdsUnder(c, id, id, inp);
    }
  }

  /** Sibling subtrees never share an id: siblings' states cannot collide. */
  lemma SiblingSubtreesDisjoint(n: Node, table: Id, i: nat, j: nat, inp: FrameInput)
    requires i < |n.children| && j < |n.children| && i != j
    ensures ChildIds(n.children[i].node, table + [Index(i)], inp) !! ChildIds(n.children[j].node, table + [Index(j)], inp)
  {
    ChildSubtreeUnder(n.children[i].node, table, i, inp);
    ChildSubtreeUnder(n.children[j].node, table, j, inp);
  }

  /** Everything a frame loads lives under the widget's own id. */
  lemma ShowIdsUnderBase(root: Node, base: Id, inp: FrameInput)
    ensures forall r :: r in ShowIds(root, base, inp) ==> Extends(r, base)
  {
    if root.hasInner {
      var hid, table := RootHeaderId(base), RootTableId(base);
      NodeIdsUnder(root, hid, table, inp);
      forall r | r in ShowIds(root, base, inp) ensures Extends(r, base) {
        if r != hid {
          assert r[..|table|] == table;
          assert r[..|base|] == r[..|table|][..|base|];
        }
      }
    }
  }

  // ---------------------------------------------------------------------
  // The header store after a frame.

  lemma {:induction false} NodeHeadersFinal(n: Node, hid: Id, table: Id, m: map<Id, HeaderState>, inp: FrameInput)
    requires !StrictlyExtends(hid, table)
    ensures FinalOn(NodeHeaders(n, hid, table, m, inp), m, NodeIds(n, hid, table, inp), inp)
    ensures AgreesOutside(NodeHeaders(n, hid, table, m, inp), m, NodeIds(n, hid, table, inp))
    decreases n, 3
  {
    var s := Loaded(m, hid);
    var m1 := m[hid := s];
    if inp.openness(hid) > 0.0 {
      TableHeadersFinal(n, table, m1, inp);
      TableIdsUnder(n, table, inp);
      assert forall r :: r in TableIds(n, table, inp) ==> r != hid && Loaded(m1, r) == Loaded(m, r);
    }
    if !DirtyAfter(s, hid, inp) {
      assert HeaderAfter(s, hid, inp) == s;
    }
  }

  lemma {:induction false} TableHeadersFinal(n: Node, table: Id, m: map<Id, HeaderState>, inp: FrameInput)
    ensures FinalOn(TableHeaders(n, table, m, inp), m, TableIds(n, table, inp), inp)
    ensures AgreesOutside(TableHeaders(n, table, m, inp), m, TableIds(n, table, inp))
    decreases n, 2
  {
    ChildrenHeadersFinal(n, |n.children|, table, m, inp);
  }

  lemma {:induction false} ChildrenHeadersFinal(n: Node, k: nat, table: Id, m: map<Id, HeaderState>, inp: FrameInput)
    requires k <= |n.children|
    ensures FinalOn(ChildrenHeaders(n, k, table, m, inp), m, ChildrenIds(n, k, table, inp), inp)
    ensures AgreesOutside(ChildrenHeaders(n, k, table, m, inp), m, ChildrenIds(n, k, table, inp))
    decreases n, 1, k
  {
    if k > 0 {
      var c, q := n.children[k - 1].node, table + [Index(k - 1)];
      var mid := ChildrenHeaders(n, k - 1, table, m, inp);
      ChildrenHeadersFinal(n, k - 1, table, m, inp);
      ChildHeadersFinal(c, q, mid, inp);
      ChildrenIdsUnder(n, k - 1, table, inp);
      ChildSubtreeUnder(c, table, k - 1, inp);
      var before, sub := ChildrenIds(n, k - 1, table, inp), ChildIds(c, q, inp);
      var res := ChildrenHeaders(n, k, table, m, inp);
      assert before !! sub;
      forall r | r in before + sub
        ensures r in res && res[r] == FinalHeader(m, r, inp)
      {
        if r in sub {
          assert Loaded(mid, r) == Loaded(m, r);
        }
      }
    }
  }

  lemma {:induction false} ChildHeadersFinal(c: Node, id: Id, m: map<Id, HeaderState>, inp: FrameInput)
    ensures FinalOn(ChildHeaders(c, id, m, inp), m, ChildIds(c, id, inp), inp)
    ensures AgreesOutside(ChildHeaders(c, id, m, inp), m, ChildIds(c, id, inp))
    decreases c, 4
  {
    if c.hasInner {
      NodeHeadersFinal(c, id, id, m, inp);
    }
  }

  /**
   * One frame, pointwise: every visited id holds its loaded state after this
   * frame's click and measurement; every other id is exactly as before.
   */
  lemma ShowHeadersFinal(root: Node, base: Id, m: map<Id, HeaderState>, inp: FrameInput)
    ensures FinalOn(ShowHeaders(root, base, m, inp), m, ShowIds(root, base, inp), inp)
    ensures AgreesOutside(ShowHeaders(root, base, m, inp), m, ShowIds(root, base, inp))
  {
    if root.hasInner {
      NodeHeadersFinal(root, RootHeaderId(base), RootTableId(base), m, inp);
    }
  }

  /** A click on a visible header flips its stored open flag, which the next frame loads. */
  lemma ToggleSeenNextFrame(root: Node, base: Id, m: map<Id, HeaderState>, inp: FrameInput, q: Id)
    requires q in ShowIds(root, base, inp)
    ensures Loaded(ShowHeaders(root, base, m, inp), q).open == (Loaded(m, q).open != inp.clicked(q))
  {
    ShowHeadersFinal(root, base, m, inp);
  }

  /** A collapsed node's descendants are neither loaded nor written. */
  lemma ClosedNodeLoadsOnlyItself(n: Node, hid: Id, table: Id, inp: FrameInput)
    requires inp.openness(hid) <= 0.0
    ensures NodeIds(n, hid, table, inp) == {hid}
  {
  }

  // ---------------------------------------------------------------------
  // The labels column.

  ghost function NodeRows(n: Node, hid: Id, table: Id, inp: FrameInput): set<Id>
    decreases n, 3
  {
    if inp.openness(hid) > 0.0 then TableRows(n, table, inp) else {}
  }

  ghost function TableRows(n: Node, table: Id, inp: FrameInput): set<Id>
    decreases n, 2
  {
    ChildrenRows(n, |n.children|, table, inp)
  }

  ghost function ChildrenRows(n: Node, k: nat, table: Id, inp: FrameInput): set<Id>
    requires k <= |n.children|
    decreases n, 1, k
  {
    if k == 0 then {}
    else ChildrenRows(n, k - 1, table, inp) + ChildRows(n.children[k - 1].node, table + [Index(k - 1)], inp)
  }

  /** The rows drawn for one child: its own, and (open, with inner records) its table's. */
  ghost function ChildRows(c: Node, id: Id, inp: FrameInput): set<Id>
    decreases c, 4
  {
    {id} + (if c.hasInner then NodeRows(c, id, id, inp) else {})
  }

  /** `w` is the maximum of `w0` and the label widths of `rows`. */
  ghost predicate RunningMax(w0: real, w: real, rows: set<Id>, inp: FrameInput) {
    && w0 <= w
    && (forall r :: r in rows ==> inp.labelWidth(r) <= w)
    && (w == w0 || exists r :: r in rows && w == inp.labelWidth(r))
  }

  lemma RunningMaxThen(w0: real, w1: real, w2: real, a: set<Id>, b: set<Id>, inp: FrameInput)
    requires RunningMax(w0, w1, a, inp) && RunningMax(w1, w2, b, inp)
    ensures RunningMax(w0, w2, a + b, inp)
  {
  }

  lemma {:induction false} NodeWidthMax(n: Node, hid: Id, table: Id, w: real, inp: FrameInput)
    ensures RunningMax(w, NodeWidth(n, hid, table, w, inp), NodeRows(n, hid, table, inp), inp)
    decreases n, 3
  {
    if inp.openness(hid) > 0.0 {
      TableWidthMax(n, table, w, inp);
    }
  }

  lemma {:induction false} TableWidthMax(n: Node, table: Id, w: real, inp: FrameInput)
    ensures RunningMax(w, TableWidth(n, table, w, inp), TableRows(n, table, inp), inp)
    decreases n, 2
  {
    ChildrenWidthMax(n, |n.children|, table, w, inp);
  }

  lemma {:induction false} ChildrenWidthMax(n: Node, k: nat, table: Id, w: real, inp: FrameInput)
    requires k <= |n.children|
    ensures RunningMax(w, ChildrenWidth(n, k, table, w, inp), ChildrenRows(n, k, table, inp), inp)
    decreases n, 1, k
  {
    if k > 0 {
      var c, q := n.children[k - 1].node, table + [Index(k - 1)];
      var mid := ChildrenWidth(n, k - 1, table, w, inp);
      ChildrenWidthMax(n, k - 1, table, w, inp);
      ChildWidthMax(c, q, mid, inp);
      RunningMaxThen(w, mid, ChildWidth(c, q, mid, inp), ChildrenRows(n, k - 1, table, inp), ChildRows(c, q, inp), inp);
    }
  }

  lemma {:induction false} ChildWidthMax(c: Node, id: Id, w: real, inp: FrameInput)
    ensures RunningMax(w, ChildWidth(c, id, w, inp), ChildRows(c, id, inp), inp)
    decreases c, 4
  {
    var w1 := Max(w, inp.labelWidth(id));
    assert RunningMax(w, w1, {id}, inp);
    if c.hasInner {
      NodeWidthMax(c, id, id, w1, inp);
      RunningMaxThen(w, w1, ChildWidth(c, id, w, inp), {id}, NodeRows(c, id, id, inp), inp);
    }
  }

  /**
   * After a frame with the root open, the stored labels width is the widest
   * label drawn in that frame, unless no label had positive width, in which
   * case the stored width is left as it was.
   */
  lemma ShowLayoutsStoresWidest(root: Node, base: Id, lm: map<Id, LayoutState>, inp: FrameInput)
    requires root.hasInner && inp.openness(RootHeaderId(base)) > 0.0
    ensures var r := ShowLayouts(root, base, lm, inp);
      && RootLayoutId(base) in r
      && ((exists row :: row in TableRows(root, RootTableId(base), inp) && 0.0 < inp.labelWidth(row)) ==>
            && (forall row :: row in TableRows(root, RootTableId(base), inp) ==> inp.labelWidth(row) <= r[RootLayoutId(base)].labelsWidth)
            && (exists row :: row in TableRows(root, RootTableId(base), inp) && r[RootLayoutId(base)].labelsWidth == inp.labelWidth(row)))
      && ((forall row :: row in TableRows(root, RootTableId(base), inp) ==> inp.labelWidth(row) <= 0.0) ==>
            r[RootLayoutId(base)] == LoadedLayout(lm, RootLayoutId(base)))
  {
    TableWidthMax(root, RootTableId(base), 0.0, inp);
  }

  /** With the same measurements, a second frame leaves the layout store as the first left it. */
  lemma ShowLayoutsSettles(root: Node, base: Id, lm: map<Id, LayoutState>, inp: FrameInput)
    ensures ShowLayouts(root, base, ShowLayouts(root, base, lm, inp), inp) == ShowLayouts(root, base, lm, inp)
  {
  }
}
