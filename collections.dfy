/**
 * The per-element wrapper that adds a remove button, and the description of
 * what a `retain` pass over flagged elements keeps.
 */
module Collections {
  import opened EguiProbe

  /** `DeleteMe`: an element under edit, and whether its remove button was clicked. */
  class DeleteMe<T> {
    var value: T
    var delete: bool

    constructor (value: T)
      ensures this.value == value && !delete
    {
      this.value := value;
      delete := false;
    }

    /**
     * The wrapped value's own probe runs first (its result is `edited`), then
     * the remove button: a click sets `delete`, and nothing clears it.
     */
    method Probe(edited: T, removeClicked: bool)
      modifies this
      ensures value == edited
      ensures delete == (old(delete) || removeClicked)
    {
      value := edited;
      if removeClicked {
        delete := true;
      }
    }

    /** An element marked for removal shows no inner records. */
    function HasInner(valueHasInner: T -> bool): (r: bool)
      reads this
      ensures r <==> valueHasInner(value) && !delete
    {
      valueHasInner(value) && !delete
    }

    function Children(valueChildren: T -> seq<Child>): (r: seq<Child>)
      reads this
      ensures r == valueChildren(value)
    {
      valueChildren(value)
    }
  }

  /**
   * What the renderer's callback did to the element visited at position `i`
   * during one `iterate_inner` pass: the edited element, and whether the
   * element's remove button was clicked.
   */
  datatype SeqVisit<!T> = SeqVisit(edit: (nat, T) -> T, remove: nat -> bool)

  /** The edited survivors among the first `n` elements, in order. */
  function RetainedPrefix<T>(s: seq<T>, v: SeqVisit<T>, n: nat): seq<T>
    requires n <= |s|
  {
    if n == 0 then [] else RetainedPrefix(s, v, n - 1) + (if v.remove(n - 1) then [] else [v.edit(n - 1, s[n - 1])])
  }

  function Retained<T>(s: seq<T>, v: SeqVisit<T>): seq<T> {
    RetainedPrefix(s, v, |s|)
  }

  /** Reference description: the positions below `n` whose remove button was not clicked, ascending. */
  function KeptIndices(remove: nat -> bool, n: nat): seq<nat> {
    if n == 0 then [] else KeptIndices(remove, n - 1) + (if remove(n - 1) then [] else [n - 1])
  }

  lemma {:induction false} KeptIndicesExact(remove: nat -> bool, n: nat)
    ensures forall i: nat :: i in KeptIndices(remove, n) <==> i < n && !remove(i)
    ensures forall a, b :: 0 <= a < b < |KeptIndices(remove, n)| ==> KeptIndices(remove, n)[a] < KeptIndices(remove, n)[b]
    ensures forall a :: 0 <= a < |KeptIndices(remove, n)| ==> KeptIndices(remove, n)[a] < n
  {
    if n > 0 {
      KeptIndicesExact(remove, n - 1);
    }
  }

  /**
   * `retain` keeps exactly the unflagged elements, in their original order:
   * the survivors are the edited elements at the kept positions.
   */
  lemma {:induction false} RetainedSelectsKept<T>(s: seq<T>, v: SeqVisit<T>, n: nat)
    requires n <= |s|
    ensures |RetainedPrefix(s, v, n)| == |KeptIndices(v.remove, n)|
    ensures forall a :: 0 <= a < |KeptIndices(v.remove, n)| ==>
      KeptIndices(v.remove, n)[a] < |s| && RetainedPrefix(s, v, n)[a] == v.edit(KeptIndices(v.remove, n)[a], s[KeptIndices(v.remove, n)[a]])
  {
    if n > 0 {
      RetainedSelectsKept(s, v, n - 1);
      KeptIndicesExact(v.remove, n - 1);
    }
  }

  /** With no remove click the pass only edits: length and positions are kept. */
  lemma {:induction false} RetainedWithoutRemoval<T>(s: seq<T>, v: SeqVisit<T>, n: nat)
    requires n <= |s|
    requires forall i :: 0 <= i < n ==> !v.remove(i)
    ensures |RetainedPrefix(s, v, n)| == n
    ensures forall i :: 0 <= i < n ==> RetainedPrefix(s, v, n)[i] == v.edit(i, s[i])
  {
    if n > 0 {
      RetainedWithoutRemoval(s, v, n - 1);
    }
  }

  /** Every flagged element is gone: the survivors number exactly the unflagged positions. */
  lemma {:induction false} RetainedAllFlagged<T>(s: seq<T>, v: SeqVisit<T>, n: nat)
    requires n <= |s|
    requires forall i :: 0 <= i < n ==> v.remove(i)
    ensures RetainedPrefix(s, v, n) == []
  {
    if n > 0 {
      RetainedAllFlagged(s, v, n - 1);
    }
  }
}
