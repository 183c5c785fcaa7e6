/**
 * Growable sequences: `Vec<T>` and the two `SmallVec` flavours, which share
 * this code up to the change flag of `probe`, plus their frozen forms.
 */
module Vecs {
  import opened Wrappers
  import opened Labels
  import opened Options
  import opened Collections
  import opened Arrays

  class Vec<T> {
    var items: seq<T>

    constructor (items: seq<T>)
      ensures this.items == items
    {
      this.items := items;
    }

    /**
     * `Vec::probe` as the crate writes it: the summary shows the current
     * length, and the add button pushes one default element; the response is
     * never marked changed, even though the vector grew.
     */
    method ProbeAsWritten(addClicked: bool, default: T) returns (summary: string, changed: bool)
      modifies this
      ensures summary == LengthSummary(|old(items)|)
      ensures items == if addClicked then old(items) + [default] else old(items)
      ensures addClicked ==> items != old(items) && !changed
      ensures !changed
    {
      summary := LengthSummary(|items|);
      changed := false;
      if addClicked {
        items := items + [default];
      }
    }

    /**
     * `SmallVec::probe`, and `Vec::probe` as intended: the same push, and the
     * response is marked changed exactly when the sequence grew.
     */
    method Probe(addClicked: bool, default: T) returns (summary: string, changed: bool)
      modifies this
      ensures summary == LengthSummary(|old(items)|)
      ensures items == if addClicked then old(items) + [default] else old(items)
      ensures changed <==> items != old(items)
      ensures changed == addClicked
    {
      summary := LengthSummary(|items|);
      changed := false;
      if addClicked {
        items := items + [default];
        changed := true;
      }
    }

    /** The plain and the frozen vector both have inner records exactly when they are not empty. */
    function HasInner(): (r: bool)
      reads this
      ensures r <==> |items| > 0
    {
      |items| != 0
    }

    /**
     * `iterate_inner` via `retain_mut`: every element is wrapped in a fresh
     * `DeleteMe`, handed to the callback under the label of its original
     * position (the counter advances for removed elements too), and kept
     * unless its remove button was clicked.
     */
    method IterateInner(v: SeqVisit<T>) returns (labels: seq<string>)
      modifies this
      ensures items == Retained(old(items), v)
      ensures labels == IndexLabels(|old(items)|)
    {
      var original := items;
      var kept: seq<T> := [];
      labels := [];
      var idx := 0;
      while idx < |original|
        invariant 0 <= idx <= |original|
        invariant kept == RetainedPrefix(original, v, idx)
        invariant labels == IndexLabels(idx)
      {
        var item := new DeleteMe(original[idx]);
        labels := labels + [IndexLabel(idx)];
        item.Probe(v.edit(idx, item.value), v.remove(idx));
        if !item.delete {
          kept := kept + [item.value];
        }
        idx := idx + 1;
      }
      items := kept;
    }

    /** The frozen form's probe: only the length summary, no add button. */
    function FrozenSummary(): (summary: string)
      reads this
      ensures |summary| >= 3 && ParseNat(summary[1..|summary| - 1]) == |items|
    {
      LengthSummary(|items|)
    }

    /** The frozen form's `iterate_inner`: every element visited as `[i]` and edited in place, none removed. */
    method FrozenIterateInner(edit: (nat, T) -> T) returns (labels: seq<string>)
      modifies this
      ensures items == Enumerated(old(items), edit).items
      ensures labels == Enumerated(old(items), edit).labels
    {
      labels := [];
      var i := 0;
      while i < |items|
        invariant 0 <= i <= |items| && |items| == |old(items)|
        invariant forall j :: 0 <= j < i ==> items[j] == edit(j, old(items)[j])
        invariant forall j :: i <= j < |items| ==> items[j] == old(items)[j]
        invariant labels == IndexLabels(i)
      {
        labels := labels + [IndexLabel(i)];
        items := items[i := edit(i, items[i])];
        i := i + 1;
      }
    }
  }

  /** A frozen optional smallvec: the None/Some selector over a summary-only probe. */
  class FrozenOptionVec<T> {
    var value: Option<seq<T>>

    constructor (value: Option<seq<T>>)
      ensures this.value == value
    {
      this.value := value;
    }

    /** Switching to Some materialises an empty sequence; the summary probe itself never reports a change. */
    method Probe(noneClicked: bool, someClicked: bool) returns (changed: bool)
      modifies this
      ensures SelectorOutcome(old(value), [], noneClicked, someClicked, s => Edited(s, false), value, changed)
      ensures old(value).None? && someClicked ==> value == Some([]) && changed
      ensures old(value).Some? && !noneClicked ==> value == old(value) && !changed
    {
      value, changed := OptionProbeWith(value, [], noneClicked, someClicked, s => Edited(s, false));
    }

    /** Nothing is visited for None; a Some sequence is enumerated without removal. */
    method IterateInner(edit: (nat, T) -> T) returns (labels: seq<string>)
      modifies this
      ensures old(value).None? ==> value == None && labels == []
      ensures old(value).Some? ==>
        value == Some(Enumerated(old(value).value, edit).items) && labels == Enumerated(old(value).value, edit).labels
    {
      labels := [];
      if value.Some? {
        var v := new Vec(value.value);
        labels := v.FrozenIterateInner(edit);
        value := Some(v.items);
      }
    }
  }
}
