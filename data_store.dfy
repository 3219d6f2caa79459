/**
 * The in-memory DataManager of data_manager.py: a two-level dictionary
 * `storage[entity_id][type_name] -> entity`. The pure functions below say what
 * each operation does to a storage value; the class performs the operations in
 * place and is proved against them.
 */
module DataStore {
  import opened Json

  /** A model object (a User, a Place, ...): its `id`, its class name and its other attributes. */
  datatype Entity = Entity(id: Value, typeName: string, attributes: Record)

  /** `self.storage`: entity id -> (class name -> entity). */
  type Storage = map<Value, map<string, Entity>>

  /** `get`: `storage.get(entity_id, {}).get(entity_type, None)`. */
  function Lookup(storage: Storage, entityId: Value, entityType: string): (r: Option<Entity>)
    ensures r.Some? <==> entityId in storage && entityType in storage[entityId]
    ensures Keyed(storage) && r.Some? ==> r.value.id == entityId && r.value.typeName == entityType
  {
    var inner := if entityId in storage then storage[entityId] else map[];
    if entityType in inner then Some(inner[entityType]) else None
  }

  /** Every entity is filed under its own id and its own class name. */
  ghost predicate Keyed(storage: Storage) {
    forall id, t :: id in storage && t in storage[id] ==> storage[id][t].id == id && storage[id][t].typeName == t
  }

  /** No outer key maps to an empty inner dictionary (`delete` prunes them). */
  ghost predicate NoEmptyInner(storage: Storage) {
    forall id :: id in storage ==> storage[id] != map[]
  }

  ghost predicate Invariant(storage: Storage) {
    Keyed(storage) && NoEmptyInner(storage)
  }

  /**
   * `save`: creates the inner dictionary if needed, then files the entity,
   * silently replacing an entity of the same id and class.
   */
  function Saved(storage: Storage, entity: Entity): (s: Storage)
    ensures Lookup(s, entity.id, entity.typeName) == Some(entity)
    ensures forall id, t :: (id, t) != (entity.id, entity.typeName) ==> Lookup(s, id, t) == Lookup(storage, id, t)
    ensures Keyed(storage) ==> Keyed(s)
    ensures NoEmptyInner(storage) ==> NoEmptyInner(s)
  {
    var inner := if entity.id in storage then storage[entity.id] else map[];
    storage[entity.id := inner[entity.typeName := entity]]
  }

  /** `update`: replaces the entity of the same id and class if there is one; otherwise does nothing. */
  function Updated(storage: Storage, entity: Entity): (s: Storage)
    ensures Lookup(storage, entity.id, entity.typeName).None? ==> s == storage
    ensures Lookup(storage, entity.id, entity.typeName).Some? ==> s == Saved(storage, entity)
    ensures Keyed(storage) ==> Keyed(s)
    ensures NoEmptyInner(storage) ==> NoEmptyInner(s)
  {
    if entity.id in storage && entity.typeName in storage[entity.id] then
      storage[entity.id := storage[entity.id][entity.typeName := entity]]
    else
      storage
  }

  /**
   * `delete`: removes the entity of that id and class if there is one, and the
   * id's inner dictionary once it is empty; otherwise does nothing.
   */
  function Deleted(storage: Storage, entityId: Value, entityType: string): (s: Storage)
    ensures Lookup(s, entityId, entityType) == None
    ensures forall id, t :: (id, t) != (entityId, entityType) ==> Lookup(s, id, t) == Lookup(storage, id, t)
    ensures Lookup(storage, entityId, entityType).None? ==> s == storage
    ensures Keyed(storage) ==> Keyed(s)
    ensures NoEmptyInner(storage) ==> NoEmptyInner(s)
  {
    if entityId in storage && entityType in storage[entityId] then
      var inner := storage[entityId] - {entityType};
      if inner == map[] then storage - {entityId} else storage[entityId := inner]
    else
      storage
  }

  /** Under the no-empty-inner invariant a storage is determined by what `get` returns. */
  lemma LookupDeterminesStorage(s1: Storage, s2: Storage)
    requires NoEmptyInner(s1) && NoEmptyInner(s2)
    requires forall id, t :: Lookup(s1, id, t) == Lookup(s2, id, t)
    ensures s1 == s2
  {
    forall id | id in s1 ensures id in s2 && s1[id] == s2[id] {
      var t :| t in s1[id];
      assert Lookup(s1, id, t).Some?;
      SameInner(s1, s2, id);
    }
    forall id | id in s2 ensures id in s1 {
      var t :| t in s2[id];
      assert Lookup(s2, id, t).Some?;
    }
  }

  lemma SameInner(s1: Storage, s2: Storage, id: Value)
    requires id in s1 && id in s2
    requires forall t :: Lookup(s1, id, t) == Lookup(s2, id, t)
    ensures s1[id] == s2[id]
  {
    forall t | t in s1[id] ensures t in s2[id] && s1[id][t] == s2[id][t] {
      assert Lookup(s1, id, t).Some?;
    }
    forall t | t in s2[id] ensures t in s1[id] {
      assert Lookup(s2, id, t).Some?;
    }
  }

  /** Saving an entity that was absent and deleting it again restores the storage exactly (the pruning at work). */
  lemma DeleteUndoesSave(storage: Storage, entity: Entity)
    requires NoEmptyInner(storage)
    requires Lookup(storage, entity.id, entity.typeName) == None
    ensures Deleted(Saved(storage, entity), entity.id, entity.typeName) == storage
  {
    LookupDeterminesStorage(Deleted(Saved(storage, entity), entity.id, entity.typeName), storage);
  }

  /** Saving after a delete of the same id and class is the same as saving straight away. */
  lemma SaveAfterDelete(storage: Storage, entity: Entity)
    requires NoEmptyInner(storage)
    ensures Saved(Deleted(storage, entity.id, entity.typeName), entity) == Saved(storage, entity)
  {
    LookupDeterminesStorage(Saved(Deleted(storage, entity.id, entity.typeName), entity), Saved(storage, entity));
  }

  /** The data manager itself: the nested dictionary, changed in place. */
  class DataManager {
    var storage: Storage

    ghost predicate Valid()
      reads this
    {
      Invariant(storage)
    }

    /** `__init__`: an empty storage. */
    constructor ()
      ensures Valid() && storage == map[]
    {
      storage := map[];
    }

    method Save(entity: Entity)
      requires Valid()
      modifies this
      ensures Valid()
      ensures storage == Saved(old(storage), entity)
    {
      var entityId := entity.id;
      var entityType := entity.typeName;
      if entityId !in storage {
        storage := storage[entityId := map[]];
      }
      storage := storage[entityId := storage[entityId][entityType := entity]];
      assert storage == Saved(old(storage), entity);
    }

    /** `get`: a lookup that changes nothing. */
    function Get(entityId: Value, entityType: string): (r: Option<Entity>)
      reads this
      requires Valid()
      ensures r.Some? ==> r.value.id == entityId && r.value.typeName == entityType
      ensures r.Some? <==> entityId in storage && entityType in storage[entityId]
    {
      Lookup(storage, entityId, entityType)
    }

    method Update(entity: Entity)
      requires Valid()
      modifies this
      ensures Valid()
      ensures storage == Updated(old(storage), entity)
    {
      var entityId := entity.id;
      var entityType := entity.typeName;
      if entityId in storage && entityType in storage[entityId] {
        storage := storage[entityId := storage[entityId][entityType := entity]];
      }
    }

    method Delete(entityId: Value, entityType: string)
      requires Valid()
      modifies this
      ensures Valid()
      ensures storage == Deleted(old(storage), entityId, entityType)
    {
      if entityId in storage && entityType in storage[entityId] {
        storage := storage[entityId := storage[entityId] - {entityType}];
        if storage[entityId] == map[] {
          storage := storage - {entityId};
        }
      }
    }
  }
}
