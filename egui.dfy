/**
 * The two services of the host toolkit that the widget's bookkeeping relies on:
 * persistent ids and the per-id temporary data store of `egui::Context`.
 */
module Egui {

  /** One step of an id path: `id.with(idx)` for a sibling index, `id.with("name")` for a name. */
  datatype Segment = Index(index: nat) | Name(name: string)

  /**
   * A persistent id, kept as the path of `with` steps that produced it.
   * egui hashes this path; the model keeps the path itself, so two ids are
   * equal exactly when their paths are.
   */
  type Id = seq<Segment>

  /** `id` is `prefix` followed by zero or more further steps. */
  predicate Extends(id: Id, prefix: Id) {
    |prefix| <= |id| && id[..|prefix|] == prefix
  }

  /**
   * The entries of egui's temporary data for one stored type. egui keys its
   * data by id and type, so every stored type has a store of its own.
   */
  class TempData<S> {
    var entries: map<Id, S>

    constructor (entries: map<Id, S>)
      ensures this.entries == entries
    {
      this.entries := entries;
    }

    /** `get_temp_mut_or(id, default)`: the stored value, inserting `default` first when there is none. */
    method GetTempMutOr(id: Id, default: S) returns (s: S)
      modifies this
      ensures s == if id in old(entries) then old(entries)[id] else default
      ensures entries == old(entries)[id := s]
    {
      if id in entries {
        s := entries[id];
      } else {
        s := default;
        entries := entries[id := s];
      }
    }

    /** `insert_temp(id, s)`. */
    method InsertTemp(id: Id, s: S)
      modifies this
      ensures entries == old(entries)[id := s]
    {
      entries := entries[id := s];
    }
  }
}
