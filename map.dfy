/**
 * Keyed collections (`std::collections::HashMap` and `hashbrown::HashMap`,
 * whose adapters are the same code): the new-key text field with its error
 * flag kept in the context's temporary data, the add-key rule, removal of
 * flagged entries, and the frozen forms.
 */
module Maps {
  import opened Wrappers
  import opened Egui
  import opened Options
  import opened Collections
  import opened Arrays

  datatype HashMapProbeState = HashMapProbeState(newKey: string, error: bool)

  /** What `load` uses for an id the store has never seen: an empty key, no error. */
  const DefaultKeyState: HashMapProbeState := HashMapProbeState("", false)

  function LoadedKeyState(m: map<Id, HashMapProbeState>, id: Id): HashMapProbeState {
    if id in m then m[id] else DefaultKeyState
  }

  class HashMapProbe {
    const id: Id
    var state: HashMapProbeState
    var dirty: bool

    constructor Load(store: TempData<HashMapProbeState>, id: Id)
      modifies store
      ensures this.id == id && state == LoadedKeyState(old(store.entries), id) && !dirty
      ensures store.entries == old(store.entries)[id := state]
    {
      var s := store.GetTempMutOr(id, DefaultKeyState);
      this.id := id;
      state := s;
      dirty := false;
    }

    method Store(store: TempData<HashMapProbeState>)
      modifies store
      ensures store.entries == if dirty then old(store.entries)[id := state] else old(store.entries)
    {
      if dirty {
        store.InsertTemp(id, state);
      }
    }

    /**
     * The single-line key editor. `typed` is the text after the edit when the
     * editor reported a change; a change clears the error and sets dirty.
     */
    method NewKeyEdit(typed: Option<string>)
      modifies this
      ensures typed.Some? ==> state == HashMapProbeState(typed.value, false) && dirty
      ensures typed.None? ==> state == old(state) && dirty == old(dirty)
    {
      if typed.Some? {
        state := state.(newKey := typed.value);
        dirty := true;
        state := state.(error := false);
      }
    }

    /** Raises the error flag; when it is already raised nothing changes, not even dirty. */
    method KeyError()
      modifies this
      ensures state == old(state).(error := true)
      ensures dirty == (old(dirty) || !old(state).error)
    {
      if state.error {
        return;
      }
      state := state.(error := true);
      dirty := true;
    }

    /** Clears a non-empty key text; an empty one is left alone, not even dirty. */
    method KeyAccepted()
      modifies this
      ensures state == old(state).(newKey := "")
      ensures dirty == (old(dirty) || old(state).newKey != "")
    {
      if state.newKey == "" {
        return;
      }
      state := state.(newKey := "");
      dirty := true;
    }
  }

  /** How an add click resolved. */
  datatype AddResult = NoClick | ParseFailed | Occupied | Inserted

  function AddKey<K(==, !new), V>(m: map<K, V>, text: string, addClicked: bool, parse: string -> Option<K>): (r: AddResult)
    ensures r == Inserted <==> addClicked && parse(text).Some? && parse(text).value !in m
    ensures r == Occupied <==> addClicked && parse(text).Some? && parse(text).value in m
    ensures r == ParseFailed <==> addClicked && parse(text).None?
  {
    if !addClicked then NoClick
    else match parse(text)
      case None => ParseFailed
      case Some(k) => if k in m then Occupied else Inserted
  }

  /** The key field's state at the end of the frame: after the add click, then after the text edit. */
  function KeyStateAfter(s: HashMapProbeState, r: AddResult, typed: Option<string>): (t: HashMapProbeState)
    ensures typed.Some? ==> t == HashMapProbeState(typed.value, false)
    ensures typed.None? && (r == ParseFailed || r == Occupied) ==> t == s.(error := true)
    ensures typed.None? && r == Inserted ==> t == s.(newKey := "")
    ensures typed.None? && r == NoClick ==> t == s
  {
    var s1 := match r
      case NoClick => s
      case ParseFailed => s.(error := true)
      case Occupied => s.(error := true)
      case Inserted => s.(newKey := "");
    if typed.Some? then HashMapProbeState(typed.value, false) else s1
  }

  /** The entries kept by one `retain` pass, after the callback's edits. */
  ghost function RetainedMap<K(!new), V>(m: map<K, V>, edit: (K, V) -> V, remove: K -> bool): map<K, V> {
    map k | k in m && !remove(k) :: edit(k, m[k])
  }

  /** `order` lists every key of `m` exactly once: the iteration order of the hash table. */
  ghost predicate IterationOrder<K(!new), V>(m: map<K, V>, order: seq<K>) {
    && (forall k :: k in m <==> k in order)
    && (forall i, j :: 0 <= i < j < |order| ==> order[i] != order[j])
  }

  /** The map after one `retain` pass has visited the keys `done`, in that order. */
  ghost function Visited<K(!new), V>(m: map<K, V>, edit: (K, V) -> V, remove: K -> bool, done: seq<K>): map<K, V>
    requires forall k :: k in done ==> k in m
    decreases |done|
  {
    if |done| == 0 then m
    else
      var k := done[|done| - 1];
      var before := Visited(m, edit, remove, done[..|done| - 1]);
      if remove(k) then before - {k} else before[k := edit(k, m[k])]
  }

  /** Visiting distinct keys removes exactly the flagged visited ones and edits the other visited ones. */
  lemma {:induction false} VisitedSpec<K(!new), V>(m: map<K, V>, edit: (K, V) -> V, remove: K -> bool, done: seq<K>)
    requires forall k :: k in done ==> k in m
    requires forall a, b :: 0 <= a < b < |done| ==> done[a] != done[b]
    ensures forall k :: k in Visited(m, edit, remove, done) <==> k in m && !(k in done && remove(k))
    ensures forall k :: k in Visited(m, edit, remove, done) ==>
      Visited(m, edit, remove, done)[k] == if k in done then edit(k, m[k]) else m[k]
    decreases |done|
  {
    if |done| > 0 {
      var d, last := done[..|done| - 1], done[|done| - 1];
      VisitedSpec(m, edit, remove, d);
      assert done == d + [last];
      assert last !in d;
    }
  }

  /** Visiting one more key removes it when flagged and edits it otherwise. */
  lemma VisitedStep<K(!new), V>(m: map<K, V>, edit: (K, V) -> V, remove: K -> bool, order: seq<K>, i: nat)
    requires i < |order| && forall k :: k in order ==> k in m
    ensures var k, before := order[i], Visited(m, edit, remove, order[..i]);
      Visited(m, edit, remove, order[..i + 1]) == if remove(k) then before - {k} else before[k := edit(k, m[k])]
  {
    assert order[..i + 1][..i] == order[..i];
  }

  /** A pass over every key in iteration order leaves exactly `RetainedMap`. */
  lemma VisitedAll<K(!new), V>(m: map<K, V>, edit: (K, V) -> V, remove: K -> bool, order: seq<K>)
    requires IterationOrder(m, order)
    ensures Visited(m, edit, remove, order) == RetainedMap(m, edit, remove)
  {
    VisitedSpec(m, edit, remove, order);
  }

  class HashMap<K(==, !new), V> {
    var entries: map<K, V>

    constructor (entries: map<K, V>)
      ensures this.entries == entries
    {
      this.entries := entries;
    }

    /**
     * The map's probe: the size summary, then the add row. An add click
     * parses the key text; a parse failure or an occupied key raises the
     * error and leaves the map alone; a vacant key gets the default value and
     * the key text is cleared. Every add click marks the response changed,
     * whatever it resolved to.
     */
    method Probe(store: TempData<HashMapProbeState>, id: Id, addClicked: bool,
                 parse: string -> Option<K>, default: V, typed: Option<string>)
      returns (summary: string, changed: bool)
      modifies this, store
      ensures summary == LengthSummary(|old(entries)|)
      ensures changed == addClicked
      ensures var s := LoadedKeyState(old(store.entries), id);
        var r := AddKey(old(entries), s.newKey, addClicked, parse);
        && (r == Inserted ==> entries == old(entries)[parse(s.newKey).value := default])
        && (r != Inserted ==> entries == old(entries))
        && store.entries == old(store.entries)[id := KeyStateAfter(s, r, typed)]
    {
      summary := LengthSummary(|entries|);
      changed := AddRow(store, id, addClicked, parse, default, typed);
    }

    /** The add row of the probe: the add button, the key editor, and the key state written back. */
    method AddRow(store: TempData<HashMapProbeState>, id: Id, addClicked: bool,
                  parse: string -> Option<K>, default: V, typed: Option<string>)
      returns (changed: bool)
      modifies this, store
      ensures changed == addClicked
      ensures var s := LoadedKeyState(old(store.entries), id);
        var r := AddKey(old(entries), s.newKey, addClicked, parse);
        && (r == Inserted ==> entries == old(entries)[parse(s.newKey).value := default])
        && (r != Inserted ==> entries == old(entries))
        && store.entries == old(store.entries)[id := KeyStateAfter(s, r, typed)]
    {
      var probe := new HashMapProbe.Load(store, id);
      ghost var s := probe.state;
      ghost var r := AddKey(entries, s.newKey, addClicked, parse);
      changed := false;
      if addClicked {
        var key := parse(probe.state.newKey);
        if key.Some? {
          if key.value in entries {
            assert r == Occupied;
            probe.KeyError();
          } else {
            assert r == Inserted;
            entries := entries[key.value := default];
            probe.KeyAccepted();
          }
        } else {
          assert r == ParseFailed;
          probe.KeyError();
        }
        changed := true;
      } else {
        assert r == NoClick;
      }
      probe.NewKeyEdit(typed);
      assert probe.state == KeyStateAfter(s, r, typed);
      probe.Store(store);
    }

    /**
     * `iterate_inner` via `retain`: every entry, in the table's order, is
     * wrapped in a fresh `DeleteMe` and handed to the callback under its key's
     * `Display` text; exactly the entries whose remove button was clicked go.
     */
    method IterateInner(order: seq<K>, edit: (K, V) -> V, remove: K -> bool, display: K -> string)
      returns (labels: seq<string>)
      requires IterationOrder(entries, order)
      modifies this
      ensures entries == RetainedMap(old(entries), edit, remove)
      ensures |labels| == |order| && forall i :: 0 <= i < |order| ==> labels[i] == display(order[i])
    {
      var original, m := entries, entries;
      assert IterationOrder(original, order);
      labels := [];
      var i := 0;
      while i < |order|
        invariant 0 <= i <= |order| && |labels| == i
        invariant forall j :: 0 <= j < i ==> labels[j] == display(order[j])
        invariant m == Visited(original, edit, remove, order[..i])
      {
        var k := order[i];
        VisitedSpec(original, edit, remove, order[..i]);
        assert k !in order[..i];
        var item := new DeleteMe(m[k]);
        labels := labels + [display(k)];
        item.Probe(edit(k, item.value), remove(k));
        if item.delete {
          m := m - {k};
        } else {
          m := m[k := item.value];
        }
        VisitedStep(original, edit, remove, order, i);
        i := i + 1;
      }
      assert order[..|order|] == order;
      VisitedAll(original, edit, remove, order);
      entries := m;
    }

    function FrozenSummary(): (summary: string)
      reads this
      ensures |summary| >= 3 && Labels.ParseNat(summary[1..|summary| - 1]) == |entries|
    {
      LengthSummary(|entries|)
    }

    /** The frozen form's `iterate_inner`: every entry visited and edited in place, none removed. */
    method FrozenIterateInner(order: seq<K>, edit: (K, V) -> V, display: K -> string)
      returns (labels: seq<string>)
      requires IterationOrder(entries, order)
      modifies this
      ensures entries == RetainedMap(old(entries), edit, k => false)
      ensures entries.Keys == old(entries).Keys
      ensures |labels| == |order| && forall i :: 0 <= i < |order| ==> labels[i] == display(order[i])
    {
      var original, m := entries, entries;
      labels := [];
      var i := 0;
      while i < |order|
        invariant 0 <= i <= |order| && |labels| == i
        invariant forall j :: 0 <= j < i ==> labels[j] == display(order[j])
        invariant m.Keys == original.Keys
        invariant forall k :: k in original && k !in order[..i] ==> m[k] == original[k]
        invariant forall k :: k in order[..i] ==> m[k] == edit(k, original[k])
      {
        var k := order[i];
        assert k !in order[..i];
        assert order[..i + 1] == order[..i] + [k];
        labels := labels + [display(k)];
        m := m[k := edit(k, m[k])];
        i := i + 1;
      }
      assert order[..|order|] == order;
      entries := m;
    }
  }

  /** A frozen optional map: the None/Some selector over a summary-only probe. */
  class FrozenOptionMap<K(==, !new), V> {
    var value: Option<map<K, V>>

    constructor (value: Option<map<K, V>>)
      ensures this.value == value
    {
      this.value := value;
    }

    /** Switching to Some materialises an empty map; the summary probe never reports a change. */
    method Probe(noneClicked: bool, someClicked: bool) returns (changed: bool)
      modifies this
      ensures SelectorOutcome(old(value), map[], noneClicked, someClicked, m => Edited(m, false), value, changed)
      ensures old(value).None? && someClicked ==> value == Some(map[]) && changed
      ensures old(value).Some? && !noneClicked ==> value == old(value) && !changed
    {
      value, changed := OptionProbeWith(value, map[], noneClicked, someClicked, m => Edited(m, false));
    }

    /** Nothing is visited for None; a Some map is visited without removal. */
    method IterateInner(order: seq<K>, edit: (K, V) -> V, display: K -> string) returns (labels: seq<string>)
      requires value.Some? ==> IterationOrder(value.value, order)
      modifies this
      ensures old(value).None? ==> value == None && labels == []
      ensures old(value).Some? ==> value == Some(RetainedMap(old(value).value, edit, k => false))
      ensures old(value).Some? ==> |labels| == |order| && forall i :: 0 <= i < |order| ==> labels[i] == display(order[i])
    {
      labels := [];
      if value.Some? {
        var m := new HashMap(value.value);
        labels := m.FrozenIterateInner(order, edit, display);
        value := Some(m.entries);
      }
    }
  }

  /** An accepted key grows the map by exactly that key; a rejected one changes nothing. */
  lemma AddKeyGrowsByOne<K(!new), V>(m: map<K, V>, text: string, parse: string -> Option<K>, default: V)
    requires AddKey(m, text, true, parse) == Inserted
    ensures var k := parse(text).value;
      k !in m && m[k := default].Keys == m.Keys + {k} && |m[k := default]| == |m| + 1
  {
  }

  /** A rejected key keeps the text for correction and raises the error, unless the text was edited this frame. */
  lemma RejectedKeyKeepsText(s: HashMapProbeState, r: AddResult)
    requires r == ParseFailed || r == Occupied
    ensures KeyStateAfter(s, r, None).newKey == s.newKey && KeyStateAfter(s, r, None).error
  {
  }

  /** Removal only ever drops keys; what survives is exactly the unflagged keys. */
  lemma RetainedMapKeys<K(!new), V>(m: map<K, V>, edit: (K, V) -> V, remove: K -> bool)
    ensures forall k :: k in RetainedMap(m, edit, remove) <==> k in m && !remove(k)
  {
  }
}
