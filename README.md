# EntityDefiner, modelled in Dafny

Open Liberty's Jakarta Data persistence provider defines entity classes that
Jakarta Persistence does not know yet. It does this in `EntityDefiner`, one
task per batch of classes bound to one database store. The task:

1. picks each class's key attribute (`getID`);
2. writes an `orm.xml` mapping entry for every class that is not already a
   `jakarta.persistence.Entity`, followed by one `<embeddable>` entry per
   embedded field it met (`run` and `writeAttributes`);
3. hands the mapping to the persistence service and opens an entity manager;
4. walks the runtime metamodel, entity by entity, and builds a name index:
   - upper-cased, dotted and underscored attribute names;
   - the accessor chain of every attribute;
   - the set of element-collection attributes;
5. completes each entity's `CompletableFuture<EntityInfo>` in the provider's
   `entityInfoMap`. Only the classes the metamodel holds are completed: a
   class of the batch that the metamodel does not hold keeps its future as it
   was, absent or still pending.

Any exception fails every future of the batch with that exception, and the
exception is then rethrown. An entity manager that was opened is closed on
every path.

The project models this core, file by file, in the same imperative form:

| file | module | models |
|---|---|---|
| `reflection.dfy` | `Reflection` | classes and public fields as reflection sees them (annotations become fields) |
| `java_text.dfy` | `JavaText` | `toUpperCase`, `compareTo` and `replace` on strings |
| `exceptions.dfy` | `Exceptions` | the throwables that reach `run`'s three catch clauses, and how they are rethrown |
| `key_selection.dfy` | `KeySelection` | `getID` as a loop over the fields, proved against the key rule |
| `orm_mapping.dfy` | `OrmMapping` | the field walk and `writeAttributes`, the batch loop over classes and embeddables, and the text each entry renders to |
| `metamodel_index.dfy` | `MetamodelIndex` | the runtime metamodel and the reconciler's direct loop and FIFO queue loop |
| `entity_info_map.dfy` | `EntityInfoMap` | `EntityInfo`, the single-assignment cells and the provider class that owns them |
| `entity_definer.dfy` | `EntityDefinition` | the `EntityDefiner` class: `run` with its store lookup, metamodel loop, fan-out and close |

Methods that mirror the source's loops (`GetId`, `CollectFields`,
`WriteAttributes`, `WriteEntities`, `WriteEmbeddables`, `BuildMapping`,
`Reconcile`, `PublishEntities`, `FailBatch`, `Run`) are proved equal to specification functions. The
lemmas listed below state what those functions promise.

Where the code differs from what one might expect of it, the model follows
the code:

- **Embeddables are not deduplicated.** Every embedded field appends its type
  (line 329), and every appended type gets its own `<embeddable>` entry
  (lines 161-166). `OrmMapping.SharedEmbeddableWrittenTwice` proves that two
  written classes with an embedded field of the same type produce two
  identical entries.
- **The embedded check comes first.** The embedded check (line 320) precedes
  the id, version and collection checks, so an `@Id` field of embeddable
  type is written as `embedded`.
- **Key selection.** The last field named exactly `ID` wins over earlier
  ones (line 84 overwrites). Among the other `*ID` fields the least
  upper-cased name wins.
- **Key names are keyed by class.** The key names are recorded per class of
  the batch (line 130). The metamodel loop looks its entity's class up there
  (lines 251-252): a class with no recorded key gives `getAttribute(null)`,
  and a key name the metamodel does not know gives an
  `IllegalArgumentException`. Both are failures of the batch.
- **Completing twice has no effect.** `complete` on a future that is already
  completed, normally or exceptionally, leaves it as it was. A class completed
  before a later failure therefore keeps its info after the fan-out.
- **A missing `tablePrefix` property.** Java string concatenation then writes
  `null` in front of every table name.
- **Closing the entity manager.** `finally` closes it only if it was
  obtained (`em != null`). A failure before `createEntityManager` returns
  closes nothing.

## Model

| member | source | states |
|---|---|---|
| KeySelection.GetId | dev/io.openliberty.data.internal.persistence/src/io/openliberty/data/internal/persistence/EntityDefiner.java:74-95 | the loop returns the key attribute the rule picks, or fails with IllegalArgumentException "class C lacks public field with @Id or of the form *ID" exactly when there is none |
| KeySelection.KeyIndexIsTheRule | dev/io.openliberty.data.internal.persistence/src/io/openliberty/data/internal/persistence/EntityDefiner.java:78-90 | the index chosen is the key field, both directions: the first @Id field; else the last field whose upper-cased name is ID; else the unique field with the least upper-cased name ending in ID |
| KeySelection.NoCandidateNoKey | dev/io.openliberty.data.internal.persistence/src/io/openliberty/data/internal/persistence/EntityDefiner.java:92-94 | no key is found exactly when no field has @Id and no upper-cased name ends in ID |
| KeySelection.FirstAnnotated | dev/io.openliberty.data.internal.persistence/src/io/openliberty/data/internal/persistence/EntityDefiner.java:79-80 | the first field with @Id, or none exactly when no field has one |
| KeySelection.LastExactId | dev/io.openliberty.data.internal.persistence/src/io/openliberty/data/internal/persistence/EntityDefiner.java:83-84 | the last field whose upper-cased name is exactly ID, or none exactly when there is none |
| KeySelection.LeastEndingInId | dev/io.openliberty.data.internal.persistence/src/io/openliberty/data/internal/persistence/EntityDefiner.java:85-89 | the field with the least upper-cased name ending in ID, or none exactly when none ends in ID |
| KeySelection.LeastIsUnique | dev/io.openliberty.data.internal.persistence/src/io/openliberty/data/internal/persistence/EntityDefiner.java:86 | the least *ID candidate is unique |
| KeySelection.ExactIdIsLengthTwo | dev/io.openliberty.data.internal.persistence/src/io/openliberty/data/internal/persistence/EntityDefiner.java:85 | for a name ending in ID, length two means it is exactly ID, so the length guard keeps an exact ID from being replaced |
| KeySelection.ChoicesExtend | dev/io.openliberty.data.internal.persistence/src/io/openliberty/data/internal/persistence/EntityDefiner.java:78-90 | one more field changes the first @Id, last ID and least *ID choices exactly as one loop turn does |
| JavaText.LessIrreflexive | dev/io.openliberty.data.internal.persistence/src/io/openliberty/data/internal/persistence/EntityDefiner.java:86 | compareTo(..) < 0 is irreflexive |
| JavaText.LessTotal | dev/io.openliberty.data.internal.persistence/src/io/openliberty/data/internal/persistence/EntityDefiner.java:86 | compareTo(..) < 0 orders any two distinct strings |
| JavaText.LessTransitive | dev/io.openliberty.data.internal.persistence/src/io/openliberty/data/internal/persistence/EntityDefiner.java:86 | compareTo(..) < 0 is transitive |
| JavaText.ToUpperCase | dev/io.openliberty.data.internal.persistence/src/io/openliberty/data/internal/persistence/EntityDefiner.java:82 | upper-casing keeps the length |
| JavaText.ReplaceChar | dev/io.openliberty.data.internal.persistence/src/io/openliberty/data/internal/persistence/EntityDefiner.java:226 | replace('.', '_') keeps the length |
| JavaText.OccurrencesAppend | dev/io.openliberty.data.internal.persistence/src/io/openliberty/data/internal/persistence/EntityDefiner.java:207 | the dots in a joined path are the dots of its parts |
| OrmMapping.CollectFields | dev/io.openliberty.data.internal.persistence/src/io/openliberty/data/internal/persistence/EntityDefiner.java:298-305 | the superclass walk collects exactly the persistent fields of the class, in order |
| OrmMapping.KeptMembers | dev/io.openliberty.data.internal.persistence/src/io/openliberty/data/internal/persistence/EntityDefiner.java:302-304 | a field of a visited class is kept exactly when the class is a mapped superclass or the field is declared by the class being written |
| OrmMapping.GatheredMembers | dev/io.openliberty.data.internal.persistence/src/io/openliberty/data/internal/persistence/EntityDefiner.java:299-305 | a field is collected exactly when some class of the chain contributes it |
| OrmMapping.OwnFieldsArePersistent | dev/io.openliberty.data.internal.persistence/src/io/openliberty/data/internal/persistence/EntityDefiner.java:301-304 | every public field declared by the class itself is written |
| OrmMapping.MappedAncestorFieldsArePersistent | dev/io.openliberty.data.internal.persistence/src/io/openliberty/data/internal/persistence/EntityDefiner.java:299-304 | every field listed by a @MappedSuperclass ancestor is written |
| OrmMapping.PersistentFieldOrigin | dev/io.openliberty.data.internal.persistence/src/io/openliberty/data/internal/persistence/EntityDefiner.java:299-305 | every written field comes from the class itself or from a @MappedSuperclass ancestor |
| OrmMapping.UnmappedAncestorsContributeNothing | dev/io.openliberty.data.internal.persistence/src/io/openliberty/data/internal/persistence/EntityDefiner.java:299-305 | with no @MappedSuperclass ancestor only the class's own fields are written |
| OrmMapping.RoleOf | dev/io.openliberty.data.internal.persistence/src/io/openliberty/data/internal/persistence/EntityDefiner.java:319-330 | the role precedence, each role as an if-and-only-if: embedded for an embeddable type; then id for @Id or the key name; then version; then element-collection for a Collection type; else basic |
| OrmMapping.ColumnName | dev/io.openliberty.data.internal.persistence/src/io/openliberty/data/internal/persistence/EntityDefiner.java:314-316 | a non-empty @Column value wins, else a non-empty @Id value, and no column exactly when neither is non-empty |
| OrmMapping.WriteAttributes | dev/io.openliberty.data.internal.persistence/src/io/openliberty/data/internal/persistence/EntityDefiner.java:295-341 | the loop writes one mapping per persistent field, in order, each with the role RoleOf and the column ColumnName give and the @Generated strategy; it appends the embedded field types only for an entity, and for an embeddable it fails with UnsupportedOperationException exactly when some field is embedded |
| OrmMapping.EmbeddedTypesMembers | dev/io.openliberty.data.internal.persistence/src/io/openliberty/data/internal/persistence/EntityDefiner.java:328-329 | the collected types are exactly the embeddable field types, at most one per field |
| OrmMapping.EmbeddedTypesCount | dev/io.openliberty.data.internal.persistence/src/io/openliberty/data/internal/persistence/EntityDefiner.java:329 | two embedded fields of one type append that type twice |
| OrmMapping.EntityLoopOutcome | dev/io.openliberty.data.internal.persistence/src/io/openliberty/data/internal/persistence/EntityDefiner.java:128-130 | the class loop fails exactly when some class has no key, with the first keyless class's error |
| OrmMapping.WriteEntities | dev/io.openliberty.data.internal.persistence/src/io/openliberty/data/internal/persistence/EntityDefiner.java:128-159 | the first loop ends as EntityLoop describes, and its entries are the entity entries of the written classes, in order |
| OrmMapping.EntityLoopOrder | dev/io.openliberty.data.internal.persistence/src/io/openliberty/data/internal/persistence/EntityDefiner.java:128-158 | the written classes are the batch classes not annotated jakarta.persistence.Entity, in batch order, and the names passed are those of the annotated classes, in batch order |
| OrmMapping.EntityLoopCount | dev/io.openliberty.data.internal.persistence/src/io/openliberty/data/internal/persistence/EntityDefiner.java:128-159 | every class is either passed by name or written, never both |
| OrmMapping.EntityLoopCovers | dev/io.openliberty.data.internal.persistence/src/io/openliberty/data/internal/persistence/EntityDefiner.java:132-158 | every jakarta.persistence.Entity class is passed by name and every other class is written |
| OrmMapping.EntityLoopSound | dev/io.openliberty.data.internal.persistence/src/io/openliberty/data/internal/persistence/EntityDefiner.java:132-158 | nothing is passed by name or written that is not a class of the batch of the right kind |
| OrmMapping.EntityLoopKeyDomain | dev/io.openliberty.data.internal.persistence/src/io/openliberty/data/internal/persistence/EntityDefiner.java:129-130 | a key name is recorded exactly for the classes of the batch |
| OrmMapping.EntityLoopKeyLastWins | dev/io.openliberty.data.internal.persistence/src/io/openliberty/data/internal/persistence/EntityDefiner.java:130 | the recorded key name of a class is the one getID gives for its last occurrence in the batch |
| OrmMapping.EntityLoopCollects | dev/io.openliberty.data.internal.persistence/src/io/openliberty/data/internal/persistence/EntityDefiner.java:151 | the embeddable list is the embedded field types of the written classes, in batch order |
| OrmMapping.CollectedTwice | dev/io.openliberty.data.internal.persistence/src/io/openliberty/data/internal/persistence/EntityDefiner.java:151 | an embedded type shared by two written classes is collected twice |
| OrmMapping.EmbeddableLoopOutcome | dev/io.openliberty.data.internal.persistence/src/io/openliberty/data/internal/persistence/EntityDefiner.java:161-166 | the embeddable loop fails exactly when an embeddable has an embedded field, with UnsupportedOperationException; otherwise one entry per collected type, in order |
| OrmMapping.WriteEmbeddables | dev/io.openliberty.data.internal.persistence/src/io/openliberty/data/internal/persistence/EntityDefiner.java:161-166 | the second loop yields exactly what EmbeddableLoop describes |
| OrmMapping.MappingLayout | dev/io.openliberty.data.internal.persistence/src/io/openliberty/data/internal/persistence/EntityDefiner.java:128-166 | the entity entries come first, in batch order, then the embeddable entries in discovery order; the names and keys are carried over |
| OrmMapping.SharedEmbeddableWrittenTwice | dev/io.openliberty.data.internal.persistence/src/io/openliberty/data/internal/persistence/EntityDefiner.java:161-166 | two written classes embedding the same type yield two identical embeddable entries (no deduplication) |
| OrmMapping.BuildMapping | dev/io.openliberty.data.internal.persistence/src/io/openliberty/data/internal/persistence/EntityDefiner.java:119-166 | the two loops build exactly the plan Mapping describes, or fail with the exception the first failing step throws |
| OrmMapping.EntityEntryTable | dev/io.openliberty.data.internal.persistence/src/io/openliberty/data/internal/persistence/EntityDefiner.java:136-141 | an entity entry holds the table line naming the prefix followed by the @Entity value or the simple name exactly when the class has no @Inheritance, and the SINGLE_TABLE inheritance line exactly when it has |
| OrmMapping.EntryTextFraming | dev/io.openliberty.data.internal.persistence/src/io/openliberty/data/internal/persistence/EntityDefiner.java:132-165 | every entry text opens with its entity or embeddable line and ends with the matching closing line |
| OrmMapping.ColumnLineIffColumn | dev/io.openliberty.data.internal.persistence/src/io/openliberty/data/internal/persistence/EntityDefiner.java:333-334 | an attribute element holds the column line naming n exactly when the field's column name is n |
| OrmMapping.GeneratedLineIffGenerated | dev/io.openliberty.data.internal.persistence/src/io/openliberty/data/internal/persistence/EntityDefiner.java:335-336 | an attribute element holds the generated-value line with strategy g exactly when the field has @Generated with strategy g |
| MetamodelIndex.IndexAttributes | dev/io.openliberty.data.internal.persistence/src/io/openliberty/data/internal/persistence/EntityDefiner.java:186-199 | the direct loop builds the direct index and queues the embedded attributes in order |
| MetamodelIndex.RecordLeaf | dev/io.openliberty.data.internal.persistence/src/io/openliberty/data/internal/persistence/EntityDefiner.java:217-231 | one leaf adds its three spellings where absent, its accessor chain and, for an element collection, its full name |
| MetamodelIndex.VisitEmbeddable | dev/io.openliberty.data.internal.persistence/src/io/openliberty/data/internal/persistence/EntityDefiner.java:201-233 | one polled element records its leaves and queues its embedded members at the tail |
| MetamodelIndex.Reconcile | dev/io.openliberty.data.internal.persistence/src/io/openliberty/data/internal/persistence/EntityDefiner.java:180-234 | both loops build exactly the index Reconciled describes: the direct index, then every leaf of the breadth-first expansion |
| MetamodelIndex.PutLeafFacts | dev/io.openliberty.data.internal.persistence/src/io/openliberty/data/internal/persistence/EntityDefiner.java:217-231 | a leaf adds exactly its three spellings, overwrites no name and puts its chain |
| MetamodelIndex.PutLeavesKeepsNames | dev/io.openliberty.data.internal.persistence/src/io/openliberty/data/internal/persistence/EntityDefiner.java:219-227 | putIfAbsent never overwrites: every name already in the index keeps its target |
| MetamodelIndex.PutLeavesKeys | dev/io.openliberty.data.internal.persistence/src/io/openliberty/data/internal/persistence/EntityDefiner.java:217-231 | names, chains and collection names added by leaves are exactly those some leaf claims |
| MetamodelIndex.PutLeavesFirstClaim | dev/io.openliberty.data.internal.persistence/src/io/openliberty/data/internal/persistence/EntityDefiner.java:219-227 | a new name goes to the first leaf that claims it (first writer wins) |
| MetamodelIndex.DirectNameLastWins | dev/io.openliberty.data.internal.persistence/src/io/openliberty/data/internal/persistence/EntityDefiner.java:194 | put overwrites: an upper-cased direct name maps to its last direct attribute |
| MetamodelIndex.DirectKeys | dev/io.openliberty.data.internal.persistence/src/io/openliberty/data/internal/persistence/EntityDefiner.java:186-199 | the direct index holds exactly the direct, non-embedded attributes' names, chains and collections |
| MetamodelIndex.ReconciledDirectName | dev/io.openliberty.data.internal.persistence/src/io/openliberty/data/internal/persistence/EntityDefiner.java:194-227 | in the final index a direct attribute's upper-cased name still maps to it, whatever the embedded leaves claim |
| MetamodelIndex.ReconciledFirstClaim | dev/io.openliberty.data.internal.persistence/src/io/openliberty/data/internal/persistence/EntityDefiner.java:201-227 | a name no direct attribute has maps to the first leaf, in breadth-first order, that claims it |
| MetamodelIndex.ReconciledValuesHaveAccessors | dev/io.openliberty.data.internal.persistence/src/io/openliberty/data/internal/persistence/EntityDefiner.java:194-229 | every value of the name index has an accessor chain |
| MetamodelIndex.LeavesExtendParent | dev/io.openliberty.data.internal.persistence/src/io/openliberty/data/internal/persistence/EntityDefiner.java:207-209 | a leaf's path is its parent's path plus its name, and its chain is its parent's chain plus its own member |
| MetamodelIndex.ExpansionLeafShape | dev/io.openliberty.data.internal.persistence/src/io/openliberty/data/internal/persistence/EntityDefiner.java:212-216 | leaves are never embedded attributes and their names are dotted paths |
| MetamodelIndex.ReconciledChainLengths | dev/io.openliberty.data.internal.persistence/src/io/openliberty/data/internal/persistence/EntityDefiner.java:195-229 | with dot-free attribute names every chain is as long as its path has segments |
| MetamodelIndex.ReconciledCollections | dev/io.openliberty.data.internal.persistence/src/io/openliberty/data/internal/persistence/EntityDefiner.java:196-231 | the collection set is exactly the element-collection attributes' names and full dotted names |
| MetamodelIndex.ReconciledAccessorKeys | dev/io.openliberty.data.internal.persistence/src/io/openliberty/data/internal/persistence/EntityDefiner.java:195-229 | chains exist exactly for direct non-embedded attributes and for leaves |
| MetamodelIndex.EmbeddedNotIndexed | dev/io.openliberty.data.internal.persistence/src/io/openliberty/data/internal/persistence/EntityDefiner.java:189-192 | an embedded attribute itself gets no chain and no collection entry |
| EntityInfoMap.Settle | dev/io.openliberty.data.internal.persistence/src/io/openliberty/data/internal/persistence/EntityDefiner.java:267 | computeIfAbsent plus complete: a missing or pending cell takes the outcome, a terminal cell keeps its own, no other cell changes |
| EntityInfoMap.FailAllSettles | dev/io.openliberty.data.internal.persistence/src/io/openliberty/data/internal/persistence/EntityDefiner.java:272-273 | after the fan-out every batch class's cell is terminal; free cells hold the exception, completed ones keep their outcome, other cells are unchanged |
| EntityInfoMap.PersistenceDataProvider.Complete | dev/io.openliberty.data.internal.persistence/src/io/openliberty/data/internal/persistence/EntityDefiner.java:267 | the provider's map becomes the map with the class's cell settled with the info |
| EntityInfoMap.PersistenceDataProvider.CompleteExceptionally | dev/io.openliberty.data.internal.persistence/src/io/openliberty/data/internal/persistence/EntityDefiner.java:273 | the provider's map becomes the map with the class's cell settled with the failure |
| EntityDefinition.FirstStore | dev/io.openliberty.data.internal.persistence/src/io/openliberty/data/internal/persistence/EntityDefiner.java:107-112 | the first store whose id matches, or the end of the list when none does |
| EntityDefinition.StoreFor | dev/io.openliberty.data.internal.persistence/src/io/openliberty/data/internal/persistence/EntityDefiner.java:106-113 | fails with "Not found: id" exactly when no store matches; otherwise gives the tablePrefix of the first matching store |
| EntityDefinition.AttributeNamed | dev/io.openliberty.data.internal.persistence/src/io/openliberty/data/internal/persistence/EntityDefiner.java:252 | getAttribute finds an attribute of that name exactly when one exists |
| EntityDefinition.InfoForDescribes | dev/io.openliberty.data.internal.persistence/src/io/openliberty/data/internal/persistence/EntityDefiner.java:246-265 | an entity is described exactly when its class has a key name and an attribute of that name; the info carries the entity's name and class, the reconciled index, the key name, that attribute's member and the unit |
| EntityDefinition.PublishFailure | dev/io.openliberty.data.internal.persistence/src/io/openliberty/data/internal/persistence/EntityDefiner.java:178-268 | the metamodel loop fails exactly when some entity cannot be described, with the first such entity's exception |
| EntityDefinition.PublishFrame | dev/io.openliberty.data.internal.persistence/src/io/openliberty/data/internal/persistence/EntityDefiner.java:178-268 | the loop touches only its entities' classes and never changes a terminal cell |
| EntityDefinition.PublishSettles | dev/io.openliberty.data.internal.persistence/src/io/openliberty/data/internal/persistence/EntityDefiner.java:267 | every entity the loop gets through has a terminal cell |
| EntityDefinition.PublishCompletes | dev/io.openliberty.data.internal.persistence/src/io/openliberty/data/internal/persistence/EntityDefiner.java:258-267 | an entity whose cell was free, and whose class no earlier entity had, is completed with its own info |
| EntityDefinition.EntityDefiner.PublishEntities | dev/io.openliberty.data.internal.persistence/src/io/openliberty/data/internal/persistence/EntityDefiner.java:178-268 | the loop leaves the provider's map and the failure exactly as Publish describes |
| EntityDefinition.EntityDefiner.FailBatch | dev/io.openliberty.data.internal.persistence/src/io/openliberty/data/internal/persistence/EntityDefiner.java:272-273 | the provider's map becomes the fan-out of the exception over the batch |
| EntityDefinition.EntityDefiner.Run | dev/io.openliberty.data.internal.persistence/src/io/openliberty/data/internal/persistence/EntityDefiner.java:97-293 | the provider's map, the thrown exception and the close are exactly those RunOutcome describes |
| EntityDefinition.EntityDefiner.constructor | dev/io.openliberty.data.internal.persistence/src/io/openliberty/data/internal/persistence/EntityDefiner.java:67-72 | the definer keeps its provider, database id, loader and batch |
| EntityDefinition.ClosesWhatItOpens | dev/io.openliberty.data.internal.persistence/src/io/openliberty/data/internal/persistence/EntityDefiner.java:289-291 | the entity manager is closed exactly when it was opened |
| EntityDefinition.FailureSettlesBatch | dev/io.openliberty.data.internal.persistence/src/io/openliberty/data/internal/persistence/EntityDefiner.java:271-288 | run throws exactly when a step failed, rethrowing that exception with it as the cause, wrapped in a RuntimeException exactly when it is checked; every batch cell is then terminal, free ones failed with it |
| EntityDefinition.EarlyFailureFailsBatch | dev/io.openliberty.data.internal.persistence/src/io/openliberty/data/internal/persistence/EntityDefiner.java:109-130 | a missing store or a keyless class makes run throw "Not found" or the first keyless class's error, fail every free batch cell with it, and close nothing |
| EntityDefinition.SuccessPublishesMetamodel | dev/io.openliberty.data.internal.persistence/src/io/openliberty/data/internal/persistence/EntityDefiner.java:171-268 | when run does not throw, every metamodel entity was described, its cell is terminal, and a free, first-seen class holds its info; every entity's class is a class of the batch |
| EntityDefinition.KeysComeFromBatch | dev/io.openliberty.data.internal.persistence/src/io/openliberty/data/internal/persistence/EntityDefiner.java:126-130 | the key names the metamodel loop looks up are recorded exactly for the batch's classes, each from getID of its last occurrence |

## Left out

- The OSGi lookup of the `DatabaseStore` (lines 106-108, 171) becomes a list of stores searched for the id. `getService` returning null is not modelled on its own: it is one of the failures the unit factory may report.
- `createPersistenceServiceUnit`, `createEntityManager` and `getMetamodel` (lines 168-177) are code this model cannot see. They are one function parameter (`UnitFactory`) that receives the loader, the rendered entries and the entity class names, and returns a unit with a handle, or an exception.
- Java reflection and annotations are replaced by the `Reflection` datatypes. Class identity is the class name.
- JavaText.ToUpperCase: ASCII only; locale and Unicode case mappings are not modelled.
- JavaText.Less: code-point order, while Java's `compareTo` compares UTF-16 code units; the two differ only when a supplementary character meets a character in U+E000–U+FFFF.
- OrmMapping.EOLN: the line separator is `"\n"`; the source uses `String.format("%n")` (line 59), the platform's separator, which is `"\r\n"` on Windows.
- `model.embeddable(attr.getJavaType())` (line 204) is not a lookup: an embedded attribute carries its embeddable's attributes, so the metamodel is a finite tree and the lookup cannot fail.
- The three parallel FIFO queues (lines 183-185) are one queue of (attribute, prefix, accessors) triples; they are always polled together.
- The insertion order of the `LinkedHashMap` of names (line 180) is not kept; the index is a map.
- Tracing (`Tr.*`), `entityType.getName()` at line 179 (its result is unused) and the commented-out version-member code (lines 236-244).
- `ConcurrentHashMap` atomicity and `CompletableFuture` waiters: the cells are a sequential map of single-assignment states.
- EntityDefinition.EntityDefiner.Run: closing the entity manager is a returned flag; an exception thrown by `em.close()` itself is not modelled.
