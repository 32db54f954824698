/** `MockContext`: an in-memory stand-in for the entity store in native
    unit tests, a map from entity type to a map from id to entity data.
    An entity is given by its type name and id; `store` records empty
    field data (extracting the entity's fields is unimplemented), and
    `load` never finds anything. */
module Testing {
  import opened Wrappers
  import opened Types

  class MockContext {
    var store: map<string, map<string, map<string, Value>>>

    /** `MockContext::new`: nothing stored, so nothing exists. */
    constructor ()
      ensures store == map[]
      ensures forall t, id :: !Exists(t, id)
    {
      store := map[];
    }

    /** `exists`: the type has a map and the id is a key of it. */
    predicate Exists(entityType: string, id: string)
      reads this
    {
      entityType in store && id in store[entityType]
    }

    /** `store`: creates the type's map if needed and (over)writes the id's
        slot with empty data; no other slot changes. */
    method Store(entityType: string, id: string)
      modifies this
      ensures store == old(store)[entityType := (if entityType in old(store) then old(store)[entityType] else map[])[id := map[]]]
      ensures Exists(entityType, id)
      ensures forall t, i :: (t, i) != (entityType, id) ==> (Exists(t, i) <==> old(Exists(t, i)))
    {
      var entities := if entityType in store then store[entityType] else map[];
      store := store[entityType := entities[id := map[]]];
    }

    /** `load`: the lookup is made, but the entity is never built, so the
        answer is None even for a stored id. */
    function Load(entityType: string, id: string): (r: Option<map<string, Value>>)
      ensures r.None?
    {
      None
    }

    /** `clear::<E>()`: drops every entity of one type and none of another. */
    method Clear(entityType: string)
      modifies this
      ensures store == old(store) - {entityType}
      ensures forall id :: !Exists(entityType, id)
      ensures forall t, id :: t != entityType ==> (Exists(t, id) <==> old(Exists(t, id)))
    {
      store := store - {entityType};
    }

    /** `clear_all`: nothing exists afterwards. */
    method ClearAll()
      modifies this
      ensures store == map[]
      ensures forall t, id :: !Exists(t, id)
    {
      store := map[];
    }
  }
}
