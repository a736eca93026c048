/**
 * EntityDefiner.run: find the database store, build the orm.xml entries for
 * the batch, create the persistence service unit from them, turn each entity
 * of the unit's metamodel into an EntityInfo, and publish every outcome
 * through the provider's result cells. Any throwable fails the whole batch.
 */
module EntityDefinition {
  import opened Wrappers
  import opened Exceptions
  import opened Reflection
  import opened KeySelection
  import OrmMapping
  import opened MetamodelIndex
  import opened EntityInfoMap

  /** A registered DatabaseStore service: its id property and its tablePrefix property. */
  datatype DatabaseStore = DatabaseStore(id: string, tablePrefix: Option<string>)

  /** The EntityManager, reduced to the outcome of getMetamodel().getEntities(). */
  datatype EntityManager = EntityManager(metamodel: Result<seq<RuntimeEntity>, Exception>)

  /** A PersistenceServiceUnit: an opaque handle and the outcome of createEntityManager(). */
  datatype PersistenceServiceUnit = PersistenceServiceUnit(handle: nat, entityManager: Result<EntityManager, Exception>)

  /**
   * DatabaseStore.createPersistenceServiceUnit(loader, entityClassInfo,
   * entityClassNames), whose code is outside this model.
   */
  type UnitFactory = (nat, seq<string>, seq<string>) -> Result<PersistenceServiceUnit, Exception>

  // ---------------------------------------------------------------------------
  // Store lookup
  // ---------------------------------------------------------------------------

  /** Position of the first store whose id matches, or |stores| when there is none. */
  function FirstStore(stores: seq<DatabaseStore>, databaseId: string): (i: nat)
    ensures i <= |stores|
    ensures forall j :: 0 <= j < i ==> stores[j].id != databaseId
    ensures i < |stores| ==> stores[i].id == databaseId
  {
    if stores == [] then 0
    else if stores[0].id == databaseId then 0
    else 1 + FirstStore(stores[1..], databaseId)
  }

  function NotFound(databaseId: string): Exception {
    IllegalArgument("Not found: " + databaseId)
  }

  /**
   * The service references filtered on id = databaseId: none is an
   * IllegalArgumentException, otherwise the first one's tablePrefix.
   */
  function StoreFor(stores: seq<DatabaseStore>, databaseId: string): (r: Result<Option<string>, Exception>)
    ensures r.Failure? <==> forall j :: 0 <= j < |stores| ==> stores[j].id != databaseId
    ensures r.Failure? ==> r.error == NotFound(databaseId)
    ensures r.Success? ==> exists i :: (0 <= i < |stores| && stores[i].id == databaseId &&
      r.value == stores[i].tablePrefix && forall j :: 0 <= j < i ==> stores[j].id != databaseId)
  {
    var i := FirstStore(stores, databaseId);
    if i == |stores| then Failure(NotFound(databaseId)) else Success(stores[i].tablePrefix)
  }

  // ---------------------------------------------------------------------------
  // One metamodel entity
  // ---------------------------------------------------------------------------

  /** ManagedType.getAttribute(name): the attribute of that name, if any. */
  function AttributeNamed(attrs: seq<Attribute>, name: string): (r: Option<Attribute>)
    ensures r.None? <==> forall a :: a in attrs ==> a.name != name
    ensures r.Some? ==> r.value in attrs && r.value.name == name
  {
    if attrs == [] then None
    else if attrs[0].name == name then Some(attrs[0])
    else AttributeNamed(attrs[1..], name)
  }

  /**
   * The EntityInfo run builds for one entity type: the reconciled name index,
   * the key name recorded for the entity's class in the first loop, and the
   * Java member of the attribute of that name.
   */
  function InfoFor(e: RuntimeEntity, keyAttributeNames: map<string, string>, unit: nat): Result<EntityInfo, Exception>
  {
    if e.javaType !in keyAttributeNames then Failure(NoAttributeName(e.name))
    else
      var key := keyAttributeNames[e.javaType];
      match AttributeNamed(e.attributes, key)
      case None => Failure(MissingAttribute(e.name, key))
      case Some(a) => Success(EntityInfo(e.name, e.javaType, Reconciled(e.attributes), key, a.javaMember, unit))
  }

  /**
   * An entity cannot be described exactly when its class has no recorded key
   * name or no attribute of that name; otherwise its info carries the entity's
   * name and class, the reconciled index, the key name and the key's member.
   */
  lemma InfoForDescribes(e: RuntimeEntity, keys: map<string, string>, unit: nat)
    ensures var r := InfoFor(e, keys, unit);
      r.Failure? <==> e.javaType !in keys || forall a :: a in e.attributes ==> a.name != keys[e.javaType]
    ensures var r := InfoFor(e, keys, unit);
      e.javaType !in keys ==> r == Failure(NoAttributeName(e.name))
    ensures var r := InfoFor(e, keys, unit);
      r.Failure? && e.javaType in keys ==> r.error == MissingAttribute(e.name, keys[e.javaType])
    ensures var r := InfoFor(e, keys, unit);
      r.Success? ==>
        (r.value.name == e.name && r.value.entityClass == e.javaType && r.value.unit == unit &&
         r.value.index == Reconciled(e.attributes) && r.value.keyAttributeName == keys[e.javaType])
    ensures var r := InfoFor(e, keys, unit);
      r.Success? ==>
        exists a :: a in e.attributes && a.name == r.value.keyAttributeName && a.javaMember == r.value.keyAccessor
  {
  }

  /** The cells after the metamodel loop, and the exception that stopped it, if one did. */
  datatype Published = Published(cells: map<string, Cell>, failure: Option<Exception>)

  /** The metamodel loop: complete each entity's cell in order until one entity cannot be described. */
  function Publish(cells: map<string, Cell>, es: seq<RuntimeEntity>, keys: map<string, string>, unit: nat): Published
    decreases |es|
  {
    if es == [] then Published(cells, None)
    else match InfoFor(es[0], keys, unit)
      case Failure(x) => Published(cells, Some(x))
      case Success(info) => Publish(Settle(cells, es[0].javaType, Completed(info)), es[1..], keys, unit)
  }

  predicate FirstUndescribable(es: seq<RuntimeEntity>, keys: map<string, string>, unit: nat, k: int) {
    0 <= k < |es| && InfoFor(es[k], keys, unit).Failure? &&
    forall j :: 0 <= j < k ==> InfoFor(es[j], keys, unit).Success?
  }

  /** The loop fails exactly when some entity cannot be described, with that entity's exception for the first one. */
  lemma {:induction false} PublishFailure(cells: map<string, Cell>, es: seq<RuntimeEntity>, keys: map<string, string>, unit: nat)
    ensures Publish(cells, es, keys, unit).failure.None? <==>
      forall i :: 0 <= i < |es| ==> InfoFor(es[i], keys, unit).Success?
    ensures Publish(cells, es, keys, unit).failure.Some? ==> exists k :: (FirstUndescribable(es, keys, unit, k) &&
      Publish(cells, es, keys, unit).failure.value == InfoFor(es[k], keys, unit).error)
    decreases |es|
  {
    if es != [] {
      match InfoFor(es[0], keys, unit)
      case Failure(x) =>
        assert FirstUndescribable(es, keys, unit, 0);
      case Success(info) =>
        var next := Settle(cells, es[0].javaType, Completed(info));
        PublishFailure(next, es[1..], keys, unit);
        if Publish(cells, es, keys, unit).failure.Some? {
          var k :| FirstUndescribable(es[1..], keys, unit, k) &&
            Publish(next, es[1..], keys, unit).failure.value == InfoFor(es[1..][k], keys, unit).error;
          assert FirstUndescribable(es, keys, unit, k + 1);
        } else {
          forall i | 0 <= i < |es|
            ensures InfoFor(es[i], keys, unit).Success?
          {
            if i > 0 {
              assert InfoFor(es[1..][i - 1], keys, unit).Success?;
            }
          }
        }
    }
  }

  /** The loop only touches the cells of the metamodel's classes, and never one already terminal. */
  lemma {:induction false} PublishFrame(cells: map<string, Cell>, es: seq<RuntimeEntity>, keys: map<string, string>, unit: nat, k: string)
    ensures (forall j :: 0 <= j < |es| ==> es[j].javaType != k) ==>
      (k in Publish(cells, es, keys, unit).cells <==> k in cells) &&
      (k in cells ==> Publish(cells, es, keys, unit).cells[k] == cells[k])
    ensures k in cells && !cells[k].Pending? ==>
      k in Publish(cells, es, keys, unit).cells && Publish(cells, es, keys, unit).cells[k] == cells[k]
    decreases |es|
  {
    if es != [] {
      match InfoFor(es[0], keys, unit)
      case Failure(_) =>
      case Success(info) =>
        var next := Settle(cells, es[0].javaType, Completed(info));
        PublishFrame(next, es[1..], keys, unit, k);
        if forall j :: 0 <= j < |es| ==> es[j].javaType != k {
          assert es[0].javaType != k;
          assert forall j :: 0 <= j < |es[1..]| ==> es[1..][j].javaType != k by {
            forall j | 0 <= j < |es[1..]|
              ensures es[1..][j].javaType != k
            {
              assert es[j + 1].javaType != k;
            }
          }
        }
    }
  }

  /** One turn of the metamodel loop that describes its entity. */
  lemma PublishHead(cells: map<string, Cell>, es: seq<RuntimeEntity>, keys: map<string, string>, unit: nat)
    requires es != [] && InfoFor(es[0], keys, unit).Success?
    ensures Publish(cells, es, keys, unit) ==
      Publish(Settle(cells, es[0].javaType, Completed(InfoFor(es[0], keys, unit).value)), es[1..], keys, unit)
  {
  }

  /** The first entity's cell is terminal afterwards, and holds its info when it was free. */
  lemma PublishCompletesFirst(cells: map<string, Cell>, es: seq<RuntimeEntity>, keys: map<string, string>, unit: nat)
    requires es != [] && InfoFor(es[0], keys, unit).Success?
    ensures es[0].javaType in Publish(cells, es, keys, unit).cells
    ensures !Publish(cells, es, keys, unit).cells[es[0].javaType].Pending?
    ensures (es[0].javaType !in cells || cells[es[0].javaType].Pending?) ==>
      Publish(cells, es, keys, unit).cells[es[0].javaType] == Completed(InfoFor(es[0], keys, unit).value)
  {
    var next := Settle(cells, es[0].javaType, Completed(InfoFor(es[0], keys, unit).value));
    PublishHead(cells, es, keys, unit);
    PublishFrame(next, es[1..], keys, unit, es[0].javaType);
  }

  /** Every entity the loop gets through has a terminal cell afterwards. */
  lemma {:induction false} PublishSettles(cells: map<string, Cell>, es: seq<RuntimeEntity>, keys: map<string, string>, unit: nat, i: nat)
    requires i < |es|
    requires forall j :: 0 <= j <= i ==> InfoFor(es[j], keys, unit).Success?
    ensures es[i].javaType in Publish(cells, es, keys, unit).cells
    ensures !Publish(cells, es, keys, unit).cells[es[i].javaType].Pending?
    decreases i
  {
    if i == 0 {
      PublishCompletesFirst(cells, es, keys, unit);
    } else {
      var next := Settle(cells, es[0].javaType, Completed(InfoFor(es[0], keys, unit).value));
      PublishHead(cells, es, keys, unit);
      var rest := es[1..];
      assert es[i].javaType == rest[i - 1].javaType;
      forall j | 0 <= j <= i - 1
        ensures InfoFor(rest[j], keys, unit).Success?
      {
        assert InfoFor(es[j + 1], keys, unit).Success?;
      }
      PublishSettles(next, rest, keys, unit, i - 1);
    }
  }

  /**
   * An entity whose cell was free and whose class no earlier entity had gets
   * its own info (complete() on a completed future does nothing).
   */
  lemma {:induction false} PublishCompletes(cells: map<string, Cell>, es: seq<RuntimeEntity>, keys: map<string, string>, unit: nat, i: nat)
    requires i < |es|
    requires forall j :: 0 <= j <= i ==> InfoFor(es[j], keys, unit).Success?
    requires es[i].javaType !in cells || cells[es[i].javaType].Pending?
    requires forall j :: 0 <= j < i ==> es[j].javaType != es[i].javaType
    ensures es[i].javaType in Publish(cells, es, keys, unit).cells
    ensures Publish(cells, es, keys, unit).cells[es[i].javaType] == Completed(InfoFor(es[i], keys, unit).value)
    decreases i
  {
    if i == 0 {
      PublishCompletesFirst(cells, es, keys, unit);
    } else {
      var next := Settle(cells, es[0].javaType, Completed(InfoFor(es[0], keys, unit).value));
      PublishHead(cells, es, keys, unit);
      var rest := es[1..];
      assert es[i].javaType == rest[i - 1].javaType;
      assert es[0].javaType != es[i].javaType;
      forall j | 0 <= j <= i - 1
        ensures InfoFor(rest[j], keys, unit).Success?
      {
        assert InfoFor(es[j + 1], keys, unit).Success?;
      }
      forall j | 0 <= j < i - 1
        ensures rest[j].javaType != rest[i - 1].javaType
      {
        assert es[j + 1].javaType != es[i].javaType;
      }
      PublishCompletes(next, rest, keys, unit, i - 1);
    }
  }

  // ---------------------------------------------------------------------------
  // The whole run
  // ---------------------------------------------------------------------------

  /** What run has in hand once the entity manager is open. */
  datatype Session = Session(plan: OrmMapping.MappingPlan, unit: nat, metamodel: Result<seq<RuntimeEntity>, Exception>)

  /** The steps of run up to and including createEntityManager(); any of them may throw. */
  function Open(stores: seq<DatabaseStore>, databaseId: string, loader: nat, entities: seq<ClassInfo>, createUnit: UnitFactory): Result<Session, Exception> {
    var tablePrefix :- StoreFor(stores, databaseId);
    var plan :- OrmMapping.Mapping(entities, tablePrefix);
    var punit :- createUnit(loader, OrmMapping.Document(plan), plan.entityClassNames);
    var em :- punit.entityManager;
    Success(Session(plan, punit.handle, em.metamodel))
  }

  /** The state reached by the try block: the cells, the exception it ended with, and whether em was assigned. */
  datatype Attempted = Attempted(cells: map<string, Cell>, failure: Option<Exception>, entityManagerOpened: bool)

  function Attempt(cells: map<string, Cell>, stores: seq<DatabaseStore>, databaseId: string, loader: nat, entities: seq<ClassInfo>, createUnit: UnitFactory): Attempted {
    match Open(stores, databaseId, loader, entities, createUnit)
    case Failure(x) => Attempted(cells, Some(x), false)
    case Success(s) =>
      match s.metamodel
      case Failure(x) => Attempted(cells, Some(x), true)
      case Success(es) =>
        var p := Publish(cells, es, s.plan.keyAttributeNames, s.unit);
        Attempted(p.cells, p.failure, true)
  }

  /** The class names of the batch, the keys of its cells. */
  function BatchNames(entities: seq<ClassInfo>): (names: seq<string>)
    ensures |names| == |entities|
    ensures forall i :: 0 <= i < |entities| ==> names[i] == entities[i].name
  {
    seq(|entities|, i requires 0 <= i < |entities| => entities[i].name)
  }

  /** The cells after run, what it throws, and whether its finally block closed an entity manager. */
  datatype RunResult = RunResult(cells: map<string, Cell>, thrown: Option<Thrown>, entityManagerClosed: bool)

  function RunOutcome(cells: map<string, Cell>, stores: seq<DatabaseStore>, databaseId: string, loader: nat, entities: seq<ClassInfo>, createUnit: UnitFactory): RunResult {
    var a := Attempt(cells, stores, databaseId, loader, entities, createUnit);
    match a.failure
    case None => RunResult(a.cells, None, a.entityManagerOpened)
    case Some(x) => RunResult(FailAll(a.cells, BatchNames(entities), x), Some(Propagated(x)), a.entityManagerOpened)
  }

  /** The entity manager is closed exactly when it was created, whether run then succeeds or throws. */
  lemma ClosesWhatItOpens(cells: map<string, Cell>, stores: seq<DatabaseStore>, databaseId: string, loader: nat, entities: seq<ClassInfo>, createUnit: UnitFactory)
    ensures RunOutcome(cells, stores, databaseId, loader, entities, createUnit).entityManagerClosed <==>
      Open(stores, databaseId, loader, entities, createUnit).Success?
  {
  }

  /**
   * When run throws, it throws the exception that ended the try block
   * (checked ones wrapped), and every class of the batch has a terminal
   * cell: the failed exception, unless an earlier completion got there first.
   */
  lemma FailureSettlesBatch(cells: map<string, Cell>, stores: seq<DatabaseStore>, databaseId: string, loader: nat, entities: seq<ClassInfo>, createUnit: UnitFactory)
    ensures var a := Attempt(cells, stores, databaseId, loader, entities, createUnit);
      var r := RunOutcome(cells, stores, databaseId, loader, entities, createUnit);
      (r.thrown.Some? <==> a.failure.Some?) &&
      (r.thrown.Some? ==> r.thrown.value == Propagated(a.failure.value))
    ensures var a := Attempt(cells, stores, databaseId, loader, entities, createUnit);
      var r := RunOutcome(cells, stores, databaseId, loader, entities, createUnit);
      r.thrown.Some? ==> forall c :: c in entities ==>
        c.name in r.cells && !r.cells[c.name].Pending? &&
        (c.name !in a.cells || a.cells[c.name].Pending? ==> r.cells[c.name] == Failed(a.failure.value)) &&
        (c.name in a.cells && !a.cells[c.name].Pending? ==> r.cells[c.name] == a.cells[c.name])
  {
    var a := Attempt(cells, stores, databaseId, loader, entities, createUnit);
    if a.failure.Some? {
      var names := BatchNames(entities);
      FailAllSettles(a.cells, names, a.failure.value);
      forall c | c in entities
        ensures c.name in names
      {
        var i :| 0 <= i < |entities| && entities[i] == c;
        assert names[i] == c.name;
      }
    }
  }

  /**
   * A missing store or a class without a key stops run before any cell is
   * completed: every free cell of the batch fails with getID's (or the
   * lookup's) exception.
   */
  lemma EarlyFailureFailsBatch(cells: map<string, Cell>, stores: seq<DatabaseStore>, databaseId: string, loader: nat, entities: seq<ClassInfo>, createUnit: UnitFactory)
    requires StoreFor(stores, databaseId).Failure? ||
      exists i :: 0 <= i < |entities| && KeyAttribute(entities[i]).None?
    ensures var r := RunOutcome(cells, stores, databaseId, loader, entities, createUnit);
      r.thrown.Some? && !r.entityManagerClosed &&
      (StoreFor(stores, databaseId).Failure? ==> r.thrown.value.cause == NotFound(databaseId)) &&
      (StoreFor(stores, databaseId).Success? ==>
        exists i :: OrmMapping.FirstKeyless(entities, i) && r.thrown.value.cause == NoKeyError(entities[i]))
    ensures var r := RunOutcome(cells, stores, databaseId, loader, entities, createUnit);
      r.thrown.Some? ==> forall c :: c in entities && (c.name !in cells || cells[c.name].Pending?) ==>
        c.name in r.cells && r.cells[c.name] == Failed(r.thrown.value.cause)
  {
    var store := StoreFor(stores, databaseId);
    var session := Open(stores, databaseId, loader, entities, createUnit);
    if store.Success? {
      OrmMapping.EntityLoopOutcome(entities, store.value);
      var loop := OrmMapping.EntityLoop(entities, store.value);
      assert OrmMapping.Mapping(entities, store.value) == Failure(loop.error);
      assert session == Failure(loop.error);
    } else {
      assert session == Failure(NotFound(databaseId));
    }
    assert Attempt(cells, stores, databaseId, loader, entities, createUnit) == Attempted(cells, Some(session.error), false);
    FailureSettlesBatch(cells, stores, databaseId, loader, entities, createUnit);
  }

  /**
   * When run returns normally, every entity of the metamodel was described
   * and its cell is terminal; a free cell holds the entity's info, whose key
   * is the name getID chose for the last batch class with that name.
   */
  lemma SuccessPublishesMetamodel(cells: map<string, Cell>, stores: seq<DatabaseStore>, databaseId: string, loader: nat, entities: seq<ClassInfo>, createUnit: UnitFactory, i: nat)
    requires RunOutcome(cells, stores, databaseId, loader, entities, createUnit).thrown.None?
    ensures Open(stores, databaseId, loader, entities, createUnit).Success?
    ensures Open(stores, databaseId, loader, entities, createUnit).value.metamodel.Success?
    ensures var s := Open(stores, databaseId, loader, entities, createUnit).value;
      var es := s.metamodel.value;
      var r := RunOutcome(cells, stores, databaseId, loader, entities, createUnit);
      i < |es| ==>
        InfoFor(es[i], s.plan.keyAttributeNames, s.unit).Success? &&
        es[i].javaType in r.cells && !r.cells[es[i].javaType].Pending? &&
        ((es[i].javaType !in cells || cells[es[i].javaType].Pending?) &&
          (forall j :: 0 <= j < i ==> es[j].javaType != es[i].javaType) ==>
          r.cells[es[i].javaType] == Completed(InfoFor(es[i], s.plan.keyAttributeNames, s.unit).value))
    ensures var s := Open(stores, databaseId, loader, entities, createUnit).value;
      var es := s.metamodel.value;
      i < |es| ==> exists k :: 0 <= k < |entities| && entities[k].name == es[i].javaType
  {
    var s := Open(stores, databaseId, loader, entities, createUnit).value;
    var es := s.metamodel.value;
    PublishFailure(cells, es, s.plan.keyAttributeNames, s.unit);
    if i < |es| {
      PublishSettles(cells, es, s.plan.keyAttributeNames, s.unit, i);
      if (es[i].javaType !in cells || cells[es[i].javaType].Pending?) &&
        (forall j :: 0 <= j < i ==> es[j].javaType != es[i].javaType) {
        PublishCompletes(cells, es, s.plan.keyAttributeNames, s.unit, i);
      }
      KeysComeFromBatch(stores, databaseId, loader, entities, createUnit, es[i].javaType);
    }
  }

  /** The key map the metamodel loop reads: a key for each batch class name, the one getID gave its last class. */
  lemma KeysComeFromBatch(stores: seq<DatabaseStore>, databaseId: string, loader: nat, entities: seq<ClassInfo>, createUnit: UnitFactory, name: string)
    requires Open(stores, databaseId, loader, entities, createUnit).Success?
    ensures var keys := Open(stores, databaseId, loader, entities, createUnit).value.plan.keyAttributeNames;
      name in keys <==> exists k :: 0 <= k < |entities| && entities[k].name == name
    ensures var keys := Open(stores, databaseId, loader, entities, createUnit).value.plan.keyAttributeNames;
      forall k :: (0 <= k < |entities| && entities[k].name == name &&
        (forall j :: k < j < |entities| ==> entities[j].name != name)) ==>
        name in keys && Some(keys[name]) == KeyAttribute(entities[k])
  {
    var tablePrefix := StoreFor(stores, databaseId).value;
    var pass := OrmMapping.EntityLoop(entities, tablePrefix).value;
    OrmMapping.MappingLayout(pass, tablePrefix);
    OrmMapping.EntityLoopKeyDomain(entities, tablePrefix);
    forall k | 0 <= k < |entities| && entities[k].name == name &&
      (forall j :: k < j < |entities| ==> entities[j].name != name)
      ensures name in pass.keyAttributeNames && Some(pass.keyAttributeNames[name]) == KeyAttribute(entities[k])
    {
      OrmMapping.EntityLoopKeyLastWins(entities, tablePrefix, k);
    }
  }

  // ---------------------------------------------------------------------------
  // The runnable
  // ---------------------------------------------------------------------------

  class EntityDefiner {
    const provider: PersistenceDataProvider
    const databaseId: string
    const loader: nat
    const entities: seq<ClassInfo>

    constructor(provider: PersistenceDataProvider, databaseId: string, loader: nat, entities: seq<ClassInfo>)
      ensures this.provider == provider && this.databaseId == databaseId
      ensures this.loader == loader && this.entities == entities
    {
      this.provider := provider;
      this.databaseId := databaseId;
      this.loader := loader;
      this.entities := entities;
    }

    /** The loop over model.getEntities(): reconcile each entity, look up its key, complete its cell. */
    method PublishEntities(es: seq<RuntimeEntity>, keyAttributeNames: map<string, string>, unit: nat) returns (failure: Option<Exception>)
      modifies provider
      ensures provider.entityInfoMap == Publish(old(provider.entityInfoMap), es, keyAttributeNames, unit).cells
      ensures failure == Publish(old(provider.entityInfoMap), es, keyAttributeNames, unit).failure
    {
      failure := None;
      var i := 0;
      while i < |es|
        invariant 0 <= i <= |es| && failure == None
        invariant Publish(provider.entityInfoMap, es[i..], keyAttributeNames, unit) ==
          Publish(old(provider.entityInfoMap), es, keyAttributeNames, unit)
      {
        var entityType := es[i];
        assert es[i..] == [entityType] + es[i + 1..];
        var index := Reconcile(entityType.attributes);
        var entityClass := entityType.javaType;
        if entityClass !in keyAttributeNames {
          failure := Some(NoAttributeName(entityType.name));
          assert InfoFor(entityType, keyAttributeNames, unit) == Failure(NoAttributeName(entityType.name));
          return;
        }
        var keyAttributeName := keyAttributeNames[entityClass];
        var keyAttribute := AttributeNamed(entityType.attributes, keyAttributeName);
        if keyAttribute.None? {
          failure := Some(MissingAttribute(entityType.name, keyAttributeName));
          assert InfoFor(entityType, keyAttributeNames, unit) == Failure(MissingAttribute(entityType.name, keyAttributeName));
          return;
        }
        var keyAccessor := keyAttribute.value.javaMember;
        var entityInfo := EntityInfo(entityType.name, entityClass, index, keyAttributeName, keyAccessor, unit);
        assert InfoFor(entityType, keyAttributeNames, unit) == Success(entityInfo);
        PublishHead(provider.entityInfoMap, es[i..], keyAttributeNames, unit);
        provider.Complete(entityClass, entityInfo);
        i := i + 1;
      }
    }

    /** The catch blocks: complete every class of the batch exceptionally with x. */
    method FailBatch(x: Exception)
      modifies provider
      ensures provider.entityInfoMap == FailAll(old(provider.entityInfoMap), BatchNames(entities), x)
    {
      ghost var names := BatchNames(entities);
      ghost var cells := provider.entityInfoMap;
      for i := 0 to |entities|
        invariant provider.entityInfoMap == FailAll(cells, names[..i], x)
      {
        FailAllStep(cells, names, i, x);
        provider.CompleteExceptionally(entities[i].name, x);
      }
      assert names[..|entities|] == names;
    }

    /**
     * run(): the try block, then on failure the fan-out and the rethrow,
     * and in every case the finally block's close of an opened entity manager.
     */
    method Run(stores: seq<DatabaseStore>, createUnit: UnitFactory) returns (thrown: Option<Thrown>, entityManagerClosed: bool)
      modifies provider
      ensures provider.entityInfoMap == RunOutcome(old(provider.entityInfoMap), stores, databaseId, loader, entities, createUnit).cells
      ensures thrown == RunOutcome(old(provider.entityInfoMap), stores, databaseId, loader, entities, createUnit).thrown
      ensures entityManagerClosed == RunOutcome(old(provider.entityInfoMap), stores, databaseId, loader, entities, createUnit).entityManagerClosed
    {
      ghost var a := Attempt(provider.entityInfoMap, stores, databaseId, loader, entities, createUnit);
      var em: Option<EntityManager> := None;
      var failure: Option<Exception> := None;
      var store := StoreFor(stores, databaseId);
      if store.Failure? {
        failure := Some(store.error);
      } else {
        var plan := OrmMapping.BuildMapping(entities, store.value);
        if plan.Failure? {
          failure := Some(plan.error);
        } else {
          var entityClassInfo := OrmMapping.Document(plan.value);
          var punit := createUnit(loader, entityClassInfo, plan.value.entityClassNames);
          if punit.Failure? {
            failure := Some(punit.error);
          } else if punit.value.entityManager.Failure? {
            failure := Some(punit.value.entityManager.error);
          } else {
            em := Some(punit.value.entityManager.value);
            var model := em.value.metamodel;
            if model.Failure? {
              failure := Some(model.error);
            } else {
              failure := PublishEntities(model.value, plan.value.keyAttributeNames, punit.value.handle);
            }
          }
        }
      }
      assert provider.entityInfoMap == a.cells && failure == a.failure && em.Some? == a.entityManagerOpened;
      thrown := None;
      if failure.Some? {
        FailBatch(failure.value);
        thrown := Some(Propagated(failure.value));
      }
      entityManagerClosed := em.Some?;
    }
  }
}
