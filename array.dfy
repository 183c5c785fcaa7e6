/**
 * Fixed-size arrays, references to them, and slices: a length summary and
 * one record per element, with no control that adds or removes elements.
 */
module Arrays {
  import opened Labels

  /** The `[n]` summary drawn as the probe of a sequence of `n` elements; it reads back as `n`. */
  function LengthSummary(n: nat): (r: string)
    ensures |r| >= 3 && r[0] == '[' && r[|r| - 1] == ']'
    ensures ParseNat(r[1..|r| - 1]) == n
  {
    IndexLabel(n)
  }

  /** `[T; N]` and `&mut [T; N]`: inner records exactly when `N` is not zero. */
  function ArrayHasInner(n: nat): (r: bool)
    ensures r <==> n != 0
  {
    n != 0
  }

  /** `&mut [T]`: inner records exactly when the slice is not empty. */
  function SliceHasInner<T>(s: seq<T>): (r: bool)
    ensures r <==> |s| > 0
  {
    |s| != 0
  }

  /** One enumeration pass: the elements after the callback edited them, and the labels it was given. */
  datatype Enumeration<T> = Enumeration(items: seq<T>, labels: seq<string>)

  /**
   * `iterate_inner` over `iter_mut().enumerate()`: element `i` is visited once,
   * labelled `[i]`, and edited in place; the length never changes.
   */
  function Enumerated<T>(a: seq<T>, edit: (nat, T) -> T): (r: Enumeration<T>)
    ensures |r.items| == |a| && |r.labels| == |a|
    ensures forall i :: 0 <= i < |a| ==> r.items[i] == edit(i, a[i]) && r.labels[i] == IndexLabel(i)
  {
    Enumeration(seq(|a|, i requires 0 <= i < |a| => edit(i, a[i])), IndexLabels(|a|))
  }

  /** Without edits an enumeration pass leaves the elements as they were. */
  lemma EnumeratedIdentity<T>(a: seq<T>, edit: (nat, T) -> T)
    requires forall i :: 0 <= i < |a| ==> edit(i, a[i]) == a[i]
    ensures Enumerated(a, edit).items == a
  {
  }
}
