/** The character store that `CharacterRepository` provides: a map from id to
    character, with a fresh identity allocated on the first save of a value
    that has none. */
module Repository {
  import opened Wrappers
  import opened Domain

  datatype StoreState = StoreState(rows: map<Id, Character>, nextId: Id) {
    /** Every row is filed under its own id, and the next id to hand out is
        above every id in use. */
    predicate Valid() {
      forall k | k in rows :: k < nextId && rows[k].id == Some(k)
    }
  }

  /** A store that keeps its invariant. */
  type Store = s: StoreState | s.Valid() witness StoreState(map[], 1)

  /** `findById`: present exactly when the id is a key, and then the row filed
      under it, which carries that id. */
  function FindById(s: Store, id: Id): (r: Option<Character>)
    ensures r.Some? <==> id in s.rows
    ensures r.Some? ==> r.value == s.rows[id] && r.value.id == Some(id)
  {
    if id in s.rows then Some(s.rows[id]) else None
  }

  /** `save`: a value without an id is inserted under a fresh id that no row
      used before, and comes back carrying it; a value with an id replaces the
      row under that id. Either way exactly one row is written, the returned
      value, and every other row is left as it was. */
  function Save(s: Store, c: Character): (r: (Character, Store))
    ensures r.0.id.Some?
    ensures r.1.rows == s.rows[r.0.id.value := r.0]
    ensures c.id.None? ==> r.0 == c.(id := Some(s.nextId)) && s.nextId !in s.rows
    ensures c.id.Some? ==> r.0 == c
  {
    match c.id
    case None =>
      var saved := c.(id := Some(s.nextId));
      (saved, StoreState(s.rows[s.nextId := saved], s.nextId + 1))
    case Some(i) =>
      var next := if i < s.nextId then s.nextId else i + 1;
      (c, StoreState(s.rows[i := c], next))
  }
}
