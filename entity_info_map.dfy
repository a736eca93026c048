/**
 * The entity information the definer publishes, and the provider's map from
 * entity class to a single-assignment result cell (a CompletableFuture that
 * is completed once, normally or exceptionally).
 */
module EntityInfoMap {
  import opened Exceptions
  import MetamodelIndex

  /** What run hands to repositories for one entity. */
  datatype EntityInfo = EntityInfo(
    name: string,
    entityClass: string,
    index: MetamodelIndex.NameIndex,
    keyAttributeName: string,
    keyAccessor: MetamodelIndex.Member,
    unit: nat)

  /** The state of one CompletableFuture<EntityInfo>. */
  datatype Cell = Pending | Completed(info: EntityInfo) | Failed(error: Exception)

  /**
   * computeIfAbsent(entityClass, newFuture) followed by complete or
   * completeExceptionally: a missing cell is created pending, and only a
   * pending cell takes the outcome; a cell already completed keeps its value.
   */
  function Settle(cells: map<string, Cell>, entityClass: string, outcome: Cell): (r: map<string, Cell>)
    ensures r.Keys == cells.Keys + {entityClass}
    ensures forall k :: k in cells && k != entityClass ==> r[k] == cells[k]
    ensures entityClass in cells && !cells[entityClass].Pending? ==> r[entityClass] == cells[entityClass]
    ensures (entityClass !in cells || cells[entityClass].Pending?) ==> r[entityClass] == outcome
  {
    var current := if entityClass in cells then cells[entityClass] else Cell.Pending;
    cells[entityClass := if current.Pending? then outcome else current]
  }

  /** The catch blocks of run: every class of the batch is completed exceptionally with the same throwable. */
  function FailAll(cells: map<string, Cell>, entityClasses: seq<string>, error: Exception): map<string, Cell> {
    if entityClasses == [] then cells
    else Settle(FailAll(cells, entityClasses[..|entityClasses| - 1], error), entityClasses[|entityClasses| - 1], Failed(error))
  }

  lemma FailAllStep(cells: map<string, Cell>, entityClasses: seq<string>, i: nat, error: Exception)
    requires i < |entityClasses|
    ensures FailAll(cells, entityClasses[..i + 1], error) ==
      Settle(FailAll(cells, entityClasses[..i], error), entityClasses[i], Failed(error))
  {
    assert entityClasses[..i + 1][..i] == entityClasses[..i];
  }

  /**
   * After the fan-out every class of the batch has a terminal cell: the ones
   * that were pending or absent carry the error, the ones already completed
   * keep their outcome, and no other cell changes.
   */
  lemma {:induction false} FailAllSettles(cells: map<string, Cell>, entityClasses: seq<string>, error: Exception)
    ensures FailAll(cells, entityClasses, error).Keys == cells.Keys + set k | k in entityClasses
    ensures forall k :: k in entityClasses ==> !FailAll(cells, entityClasses, error)[k].Pending?
    ensures forall k :: k in entityClasses && (k !in cells || cells[k].Pending?) ==>
      FailAll(cells, entityClasses, error)[k] == Failed(error)
    ensures forall k :: k in cells && (k !in entityClasses || !cells[k].Pending?) ==>
      FailAll(cells, entityClasses, error)[k] == cells[k]
  {
    if entityClasses != [] {
      var front := entityClasses[..|entityClasses| - 1];
      FailAllSettles(cells, front, error);
      assert entityClasses == front + [entityClasses[|entityClasses| - 1]];
    }
  }

  /** PersistenceDataProvider: the part of it the entity definer updates. */
  class PersistenceDataProvider {
    var entityInfoMap: map<string, Cell>

    constructor()
      ensures entityInfoMap == map[]
    {
      entityInfoMap := map[];
    }

    /** entityInfoMap.computeIfAbsent(entityClass, EntityInfo::newFuture).complete(info). */
    method Complete(entityClass: string, info: EntityInfo)
      modifies this
      ensures entityInfoMap == Settle(old(entityInfoMap), entityClass, Completed(info))
    {
      var future := if entityClass in entityInfoMap then entityInfoMap[entityClass] else Cell.Pending;
      if future.Pending? {
        entityInfoMap := entityInfoMap[entityClass := Completed(info)];
      } else {
        entityInfoMap := entityInfoMap[entityClass := future];
      }
    }

    /** entityInfoMap.computeIfAbsent(entityClass, EntityInfo::newFuture).completeExceptionally(x). */
    method CompleteExceptionally(entityClass: string, x: Exception)
      modifies this
      ensures entityInfoMap == Settle(old(entityInfoMap), entityClass, Failed(x))
    {
      var future := if entityClass in entityInfoMap then entityInfoMap[entityClass] else Cell.Pending;
      if future.Pending? {
        entityInfoMap := entityInfoMap[entityClass := Failed(x)];
      } else {
        entityInfoMap := entityInfoMap[entityClass := future];
      }
    }
  }
}
