/**
 * The orm.xml document EntityDefiner.run builds for classes that are not yet
 * Jakarta Persistence entities: which fields are mapped (writeAttributes),
 * the role, column and generated value of each, one entity entry per class
 * and one embeddable entry per embedded field, and the text of each entry.
 */
module OrmMapping {
  import opened Wrappers
  import opened Exceptions
  import opened Reflection
  import opened KeySelection

  // ---------------------------------------------------------------------
  // Which fields writeAttributes maps
  // ---------------------------------------------------------------------

  /** The class o and its superclasses, nearest first (the getSuperclass() walk). */
  function Chain(o: Option<ClassInfo>): seq<ClassInfo>
    decreases o
  {
    match o
    case None => []
    case Some(k) => [k] + Chain(k.superclass)
  }

  /** The fields of fs the inner loop keeps: all of them for a mapped superclass, else those c declares. */
  function Kept(c: ClassInfo, mapped: bool, fs: seq<FieldInfo>): seq<FieldInfo> {
    if fs == [] then []
    else
      var last := fs[|fs| - 1];
      Kept(c, mapped, fs[..|fs| - 1]) + (if mapped || last.declaringClass == c.name then [last] else [])
  }

  lemma {:induction false} KeptMembers(c: ClassInfo, mapped: bool, fs: seq<FieldInfo>)
    ensures forall f :: f in Kept(c, mapped, fs) <==> f in fs && (mapped || f.declaringClass == c.name)
    ensures mapped ==> Kept(c, mapped, fs) == fs
  {
    if fs != [] {
      KeptMembers(c, mapped, fs[..|fs| - 1]);
      assert fs == fs[..|fs| - 1] + [fs[|fs| - 1]];
    }
  }

  /** What the class k of the superclass walk adds to the fields of c. */
  function Contribution(c: ClassInfo, k: ClassInfo): seq<FieldInfo> {
    if k.isMappedSuperclass || k == c then Kept(c, k.isMappedSuperclass, k.fields) else []
  }

  function Gathered(c: ClassInfo, ks: seq<ClassInfo>): seq<FieldInfo> {
    if ks == [] then [] else Gathered(c, ks[..|ks| - 1]) + Contribution(c, ks[|ks| - 1])
  }

  lemma GatheredStep(c: ClassInfo, ks: seq<ClassInfo>, k: ClassInfo)
    ensures Gathered(c, ks + [k]) == Gathered(c, ks) + Contribution(c, k)
  {
    assert (ks + [k])[..|ks|] == ks;
  }

  lemma KeptStep(c: ClassInfo, mapped: bool, fs: seq<FieldInfo>, j: nat)
    requires j < |fs|
    ensures Kept(c, mapped, fs[..j + 1]) ==
      Kept(c, mapped, fs[..j]) + (if mapped || fs[j].declaringClass == c.name then [fs[j]] else [])
  {
    assert fs[..j + 1][..j] == fs[..j];
  }

  lemma {:induction false} GatheredMembers(c: ClassInfo, ks: seq<ClassInfo>, f: FieldInfo)
    ensures f in Gathered(c, ks) <==> exists k :: k in ks && f in Contribution(c, k)
  {
    if ks != [] {
      GatheredMembers(c, ks[..|ks| - 1], f);
      assert ks == ks[..|ks| - 1] + [ks[|ks| - 1]];
    }
  }

  /** The fields writeAttributes maps for class c, in the order it maps them. */
  function PersistentFields(c: ClassInfo): seq<FieldInfo> {
    Gathered(c, Chain(Some(c)))
  }

  lemma WalkStep(visited: seq<ClassInfo>, k: ClassInfo)
    ensures (visited + [k]) + Chain(k.superclass) == visited + Chain(Some(k))
    ensures |Chain(k.superclass)| < |Chain(Some(k))|
  {
  }

  /** The superclass walk of writeAttributes, filling the fields list in place. */
  method CollectFields(c: ClassInfo) returns (fields: seq<FieldInfo>)
    ensures fields == PersistentFields(c)
  {
    fields := [];
    var superc: Option<ClassInfo> := Some(c);
    ghost var visited: seq<ClassInfo> := [];
    while superc.Some?
      invariant visited + Chain(superc) == Chain(Some(c))
      invariant fields == Gathered(c, visited)
      decreases |Chain(superc)|
    {
      var k := superc.value;
      var isMappedSuperclass := k.isMappedSuperclass;
      ghost var before := fields;
      if isMappedSuperclass || k == c {
        for j := 0 to |k.fields|
          invariant fields == before + Kept(c, isMappedSuperclass, k.fields[..j])
        {
          var f := k.fields[j];
          KeptStep(c, isMappedSuperclass, k.fields, j);
          if isMappedSuperclass || c.name == f.declaringClass {
            fields := fields + [f];
          }
        }
        assert k.fields[..|k.fields|] == k.fields;
      }
      GatheredStep(c, visited, k);
      WalkStep(visited, k);
      visited := visited + [k];
      superc := k.superclass;
    }
    assert visited == Chain(Some(c));
  }

  function Depth(c: ClassInfo): nat {
    match c.superclass
    case None => 1
    case Some(s) => 1 + Depth(s)
  }

  lemma {:induction false} AncestorsAreShallower(c: ClassInfo, k: ClassInfo)
    requires k in Chain(c.superclass)
    ensures Depth(k) < Depth(c)
    decreases Depth(c)
  {
    var s := c.superclass.value;
    if k != s {
      AncestorsAreShallower(s, k);
    }
  }

  /** Every public field the class itself declares is mapped. */
  lemma OwnFieldsArePersistent(c: ClassInfo, f: FieldInfo)
    requires f in c.fields && f.declaringClass == c.name
    ensures f in PersistentFields(c)
  {
    KeptMembers(c, c.isMappedSuperclass, c.fields);
    assert c in Chain(Some(c)) && f in Contribution(c, c);
    GatheredMembers(c, Chain(Some(c)), f);
  }

  /** Every public field of a @MappedSuperclass ancestor is mapped, inherited ones included. */
  lemma MappedAncestorFieldsArePersistent(c: ClassInfo, k: ClassInfo, f: FieldInfo)
    requires k in Chain(c.superclass) && k.isMappedSuperclass && f in k.fields
    ensures f in PersistentFields(c)
  {
    KeptMembers(c, true, k.fields);
    assert k in Chain(Some(c)) && f in Contribution(c, k);
    GatheredMembers(c, Chain(Some(c)), f);
  }

  /**
   * A mapped field is a field c declares, a field of c when c is itself a
   * @MappedSuperclass, or a field of an ancestor marked @MappedSuperclass:
   * ancestors without that marker contribute nothing.
   */
  lemma PersistentFieldOrigin(c: ClassInfo, f: FieldInfo)
    requires f in PersistentFields(c)
    ensures (f in c.fields && (c.isMappedSuperclass || f.declaringClass == c.name)) ||
            exists k :: k in Chain(c.superclass) && k.isMappedSuperclass && f in k.fields
  {
    GatheredMembers(c, Chain(Some(c)), f);
    var k :| k in Chain(Some(c)) && f in Contribution(c, k);
    KeptMembers(c, k.isMappedSuperclass, k.fields);
  }

  /** Without a @MappedSuperclass ancestor only the class's own getFields() are looked at. */
  lemma UnmappedAncestorsContributeNothing(c: ClassInfo)
    requires forall k :: k in Chain(c.superclass) ==> !k.isMappedSuperclass
    ensures PersistentFields(c) == Kept(c, c.isMappedSuperclass, c.fields)
  {
    var ancestors := Chain(c.superclass);
    forall i | 0 <= i < |ancestors|
      ensures Contribution(c, ancestors[i]) == []
    {
      AncestorsAreShallower(c, ancestors[i]);
    }
    GatheredIgnoresEmpty(c, [c], ancestors);
    assert Chain(Some(c)) == [c] + ancestors;
    GatheredStep(c, [], c);
    assert [] + [c] == [c];
  }

  /** Classes that contribute nothing leave the gathered fields as they are. */
  lemma {:induction false} GatheredIgnoresEmpty(c: ClassInfo, ks: seq<ClassInfo>, ls: seq<ClassInfo>)
    requires forall i :: 0 <= i < |ls| ==> Contribution(c, ls[i]) == []
    ensures Gathered(c, ks + ls) == Gathered(c, ks)
    decreases |ls|
  {
    if ls == [] {
      assert ks + ls == ks;
    } else {
      var front := ls[..|ls| - 1];
      var last := ls[|ls| - 1];
      assert ks + ls == (ks + front) + [last];
      GatheredStep(c, ks + front, last);
      GatheredIgnoresEmpty(c, ks, front);
    }
  }

  // ---------------------------------------------------------------------
  // Role, column and generated value of one field
  // ---------------------------------------------------------------------

  /** The orm.xml element written for an attribute. */
  datatype Role = Id | Version | Embedded | ElementCollection | Basic

  function RoleElement(r: Role): string {
    match r
    case Id => "id"
    case Version => "version"
    case Embedded => "embedded"
    case ElementCollection => "element-collection"
    case Basic => "basic"
  }

  /**
   * The role of a field: an embeddable-typed field is embedded before anything
   * else is asked; then @Id or the key attribute name, then the name
   * "version", then a Collection type.
   */
  function RoleOf(f: FieldInfo, keyAttributeName: Option<string>): (r: Role)
    ensures r == Embedded <==> f.fieldType.isEmbeddable
    ensures r == Id <==> !f.fieldType.isEmbeddable && (f.id.Some? || keyAttributeName == Some(f.name))
    ensures r == Version <==>
      !f.fieldType.isEmbeddable && f.id.None? && keyAttributeName != Some(f.name) && f.name == "version"
    ensures r == ElementCollection <==>
      !f.fieldType.isEmbeddable && f.id.None? && keyAttributeName != Some(f.name) && f.name != "version" &&
      f.fieldType.isCollection
  {
    if f.fieldType.isEmbeddable then Embedded
    else if f.id.Some? || keyAttributeName == Some(f.name) then Id
    else if f.name == "version" then Version
    else if f.fieldType.isCollection then ElementCollection
    else Basic
  }

  /** The column name: a non-empty @Column value, else a non-empty @Id value, else none. */
  function ColumnName(f: FieldInfo): (r: Option<string>)
    ensures r.Some? ==> r.value != "" && (r == f.column || r == f.id)
    ensures f.column.Some? && f.column.value != "" ==> r == f.column
    ensures r.None? <==> (f.column.None? || f.column.value == "") && (f.id.None? || f.id.value == "")
  {
    if f.column.Some? && f.column.value != "" then f.column
    else if f.id.Some? && f.id.value != "" then f.id
    else None
  }

  datatype AttributeMapping = AttributeMapping(
    role: Role,
    name: string,
    column: Option<string>,
    generatedStrategy: Option<string>)

  function FieldMapping(f: FieldInfo, keyAttributeName: Option<string>): AttributeMapping {
    AttributeMapping(RoleOf(f, keyAttributeName), f.name, ColumnName(f), f.generated)
  }

  function FieldMappings(fs: seq<FieldInfo>, keyAttributeName: Option<string>): seq<AttributeMapping> {
    seq(|fs|, i requires 0 <= i < |fs| => FieldMapping(fs[i], keyAttributeName))
  }

  lemma FieldMappingsStep(fs: seq<FieldInfo>, i: nat, keyAttributeName: Option<string>)
    requires i < |fs|
    ensures FieldMappings(fs[..i + 1], keyAttributeName) ==
      FieldMappings(fs[..i], keyAttributeName) + [FieldMapping(fs[i], keyAttributeName)]
  {
    assert fs[..i + 1][..i] == fs[..i];
  }

  /** The type of every embedded field, one per field, in field order: nothing is deduplicated. */
  function EmbeddedTypes(fs: seq<FieldInfo>): seq<ClassInfo> {
    if fs == [] then []
    else
      var last := fs[|fs| - 1];
      EmbeddedTypes(fs[..|fs| - 1]) + (if last.fieldType.isEmbeddable then [last.fieldType] else [])
  }

  /** One type per embedded field and nothing else. */
  lemma {:induction false} EmbeddedTypesMembers(fs: seq<FieldInfo>)
    ensures |EmbeddedTypes(fs)| <= |fs|
    ensures forall t :: t in EmbeddedTypes(fs) <==> t.isEmbeddable && exists i :: 0 <= i < |fs| && fs[i].fieldType == t
  {
    if fs != [] {
      EmbeddedTypesMembers(fs[..|fs| - 1]);
      assert forall i :: 0 <= i < |fs| - 1 ==> fs[..|fs| - 1][i] == fs[i];
    }
  }

  lemma {:induction false} EmbeddedTypesCount(fs: seq<FieldInfo>, i: nat, j: nat)
    requires i < j < |fs| && fs[i].fieldType.isEmbeddable && fs[j].fieldType == fs[i].fieldType
    ensures multiset(EmbeddedTypes(fs))[fs[i].fieldType] >= 2
  {
    var t := fs[i].fieldType;
    var n := |fs| - 1;
    var front := fs[..n];
    var last := if fs[n].fieldType.isEmbeddable then [fs[n].fieldType] else [];
    assert EmbeddedTypes(fs) == EmbeddedTypes(front) + last;
    assert front[i] == fs[i];
    if j < n {
      assert front[j] == fs[j];
      EmbeddedTypesCount(front, i, j);
    } else {
      EmbeddedTypesMembers(front);
      assert t in EmbeddedTypes(front);
      assert last == [t];
    }
  }

  lemma EmbeddedTypesStep(fs: seq<FieldInfo>, i: nat)
    requires i < |fs|
    ensures EmbeddedTypes(fs[..i + 1]) ==
      EmbeddedTypes(fs[..i]) + (if fs[i].fieldType.isEmbeddable then [fs[i].fieldType] else [])
  {
    assert fs[..i + 1][..i] == fs[..i];
  }

  predicate HasEmbeddedField(fs: seq<FieldInfo>) {
    exists i :: 0 <= i < |fs| && fs[i].fieldType.isEmbeddable
  }

  lemma NoEmbeddedFieldStep(fs: seq<FieldInfo>, i: nat)
    requires i < |fs| && !HasEmbeddedField(fs[..i]) && !fs[i].fieldType.isEmbeddable
    ensures !HasEmbeddedField(fs[..i + 1])
  {
    assert forall j :: 0 <= j < i ==> fs[..i + 1][j] == fs[..i][j];
  }

  /** What writeAttributes leaves behind: the attribute elements and the embeddable types it appended. */
  datatype Written = Written(attributes: seq<AttributeMapping>, embeddableTypes: seq<ClassInfo>)

  const NestedEmbeddableError: Exception := UnsupportedOperation("TODO: Embeddedable within an Embeddable")

  /**
   * writeAttributes as a function: for an entity (collectEmbeddables) every
   * embedded field's type is appended; for an embeddable an embeddable-typed
   * field throws UnsupportedOperationException.
   */
  function WrittenFor(c: ClassInfo, keyAttributeName: Option<string>, collectEmbeddables: bool): (r: Result<Written, Exception>)
    ensures r.Failure? <==> !collectEmbeddables && HasEmbeddedField(PersistentFields(c))
    ensures r.Failure? ==> r.error == NestedEmbeddableError
    ensures r.Success? ==>
      var fs := PersistentFields(c);
      |r.value.attributes| == |fs| &&
      (forall i :: 0 <= i < |fs| ==> r.value.attributes[i] == FieldMapping(fs[i], keyAttributeName)) &&
      r.value.embeddableTypes == (if collectEmbeddables then EmbeddedTypes(fs) else [])
  {
    var fs := PersistentFields(c);
    if !collectEmbeddables && HasEmbeddedField(fs) then Failure(NestedEmbeddableError)
    else Success(Written(FieldMappings(fs, keyAttributeName), if collectEmbeddables then EmbeddedTypes(fs) else []))
  }

  /** writeAttributes: the field loop, appending to the attribute list and to the embeddable list. */
  method WriteAttributes(c: ClassInfo, keyAttributeName: Option<string>, collectEmbeddables: bool)
    returns (r: Result<Written, Exception>)
    ensures r == WrittenFor(c, keyAttributeName, collectEmbeddables)
  {
    var fields := CollectFields(c);
    var attributes: seq<AttributeMapping> := [];
    var embeddableTypes: seq<ClassInfo> := [];
    for i := 0 to |fields|
      invariant attributes == FieldMappings(fields[..i], keyAttributeName)
      invariant collectEmbeddables ==> embeddableTypes == EmbeddedTypes(fields[..i])
      invariant !collectEmbeddables ==> embeddableTypes == [] && !HasEmbeddedField(fields[..i])
    {
      var field := fields[i];
      EmbeddedTypesStep(fields, i);
      FieldMappingsStep(fields, i, keyAttributeName);
      var attributeName := field.name;
      var columnName :=
        if field.column.None? || field.column.value == "" then
          (if field.id.None? || field.id.value == "" then None else field.id)
        else field.column;
      var isCollection := field.fieldType.isCollection;
      var columnType: Role;
      if !field.fieldType.isEmbeddable {
        columnType :=
          if field.id.Some? || keyAttributeName == Some(attributeName) then Id
          else if attributeName == "version" then Version
          else if isCollection then ElementCollection
          else Basic;
        if !collectEmbeddables {
          NoEmbeddedFieldStep(fields, i);
        }
      } else if !collectEmbeddables {
        assert HasEmbeddedField(fields);
        return Failure(NestedEmbeddableError);
      } else {
        columnType := Embedded;
        embeddableTypes := embeddableTypes + [field.fieldType];
      }
      assert columnName == ColumnName(field);
      assert columnType == RoleOf(field, keyAttributeName);
      attributes := attributes + [AttributeMapping(columnType, attributeName, columnName, field.generated)];
    }
    assert fields[..|fields|] == fields;
    return Success(Written(attributes, embeddableTypes));
  }

  // ---------------------------------------------------------------------
  // Entries of the mapping document
  // ---------------------------------------------------------------------

  datatype TableSpec = Table(name: string) | SingleTableInheritance

  datatype MappingEntry =
    | EntityEntry(className: string, table: TableSpec, discriminatorValue: Option<string>,
                  discriminatorColumn: Option<string>, attributes: seq<AttributeMapping>)
    | EmbeddableEntry(className: string, attributes: seq<AttributeMapping>)

  /** Java string concatenation writes a null tablePrefix as "null". */
  function PrefixText(tablePrefix: Option<string>): string {
    match tablePrefix
    case None => "null"
    case Some(p) => p
  }

  /** tablePrefix followed by the non-empty @Entity value, or else the simple class name. */
  function TableName(tablePrefix: Option<string>, c: ClassInfo): (n: string)
    ensures c.dataEntity.Some? && c.dataEntity.value != "" ==> n == PrefixText(tablePrefix) + c.dataEntity.value
    ensures c.dataEntity.None? || c.dataEntity.value == "" ==> n == PrefixText(tablePrefix) + c.simpleName
  {
    PrefixText(tablePrefix) + (if c.dataEntity.None? || c.dataEntity.value == "" then c.simpleName else c.dataEntity.value)
  }

  function TableFor(tablePrefix: Option<string>, c: ClassInfo): TableSpec {
    if c.hasInheritance then SingleTableInheritance else Table(TableName(tablePrefix, c))
  }

  /** The entry run writes for a class not annotated jakarta.persistence.Entity. */
  function EntityEntryFor(c: ClassInfo, tablePrefix: Option<string>): MappingEntry {
    EntityEntry(c.name, TableFor(tablePrefix, c), c.discriminatorValue, c.discriminatorColumn,
                FieldMappings(PersistentFields(c), KeyAttribute(c)))
  }

  /** The entry run writes for a collected embeddable type: no key attribute name. */
  function EmbeddableEntryFor(t: ClassInfo): MappingEntry {
    EmbeddableEntry(t.name, FieldMappings(PersistentFields(t), None))
  }

  /** The entity entries of the classes cs, in order. */
  function EntityEntries(cs: seq<ClassInfo>, tablePrefix: Option<string>): (es: seq<MappingEntry>)
    ensures |es| == |cs|
    ensures forall i :: 0 <= i < |cs| ==> es[i] == EntityEntryFor(cs[i], tablePrefix)
  {
    seq(|cs|, i requires 0 <= i < |cs| => EntityEntryFor(cs[i], tablePrefix))
  }

  lemma EntityEntriesStep(cs: seq<ClassInfo>, c: ClassInfo, tablePrefix: Option<string>)
    ensures EntityEntries(cs + [c], tablePrefix) == EntityEntries(cs, tablePrefix) + [EntityEntryFor(c, tablePrefix)]
  {
  }

  /**
   * The state of run's first loop: classes passed by name, classes written
   * as entity entries (entityClassInfo holds their entries), embeddable
   * types, key names.
   */
  datatype EntityPass = EntityPass(
    entityClassNames: seq<string>,
    mapped: seq<ClassInfo>,
    embeddableTypes: seq<ClassInfo>,
    keyAttributeNames: map<string, string>)

  /** One turn of run's first loop. */
  function EntityStep(p: EntityPass, c: ClassInfo, tablePrefix: Option<string>): Result<EntityPass, Exception> {
    var key :- KeyResult(c);
    var keys := p.keyAttributeNames[c.name := key];
    if c.isPersistenceEntity then
      Success(p.(entityClassNames := p.entityClassNames + [c.name], keyAttributeNames := keys))
    else
      Success(EntityPass(p.entityClassNames, p.mapped + [c],
                         p.embeddableTypes + EmbeddedTypes(PersistentFields(c)), keys))
  }

  /** run's first loop over the batch, stopping at the first exception. */
  function EntityLoop(cs: seq<ClassInfo>, tablePrefix: Option<string>): Result<EntityPass, Exception> {
    if cs == [] then Success(EntityPass([], [], [], map[]))
    else
      var p :- EntityLoop(cs[..|cs| - 1], tablePrefix);
      EntityStep(p, cs[|cs| - 1], tablePrefix)
  }

  function EmbeddableStep(entries: seq<MappingEntry>, t: ClassInfo): Result<seq<MappingEntry>, Exception> {
    if HasEmbeddedField(PersistentFields(t)) then Failure(NestedEmbeddableError)
    else Success(entries + [EmbeddableEntryFor(t)])
  }

  /** run's second loop: one embeddable entry per collected type, in collection order. */
  function EmbeddableLoop(ts: seq<ClassInfo>): Result<seq<MappingEntry>, Exception> {
    if ts == [] then Success([])
    else
      var entries :- EmbeddableLoop(ts[..|ts| - 1]);
      EmbeddableStep(entries, ts[|ts| - 1])
  }

  /** The document handed to the persistence service, and the key attribute name of every class. */
  datatype MappingPlan = MappingPlan(
    entityClassNames: seq<string>,
    entries: seq<MappingEntry>,
    keyAttributeNames: map<string, string>)

  /** The document once the first loop has passed: its entity entries followed by the embeddable entries. */
  function Assemble(p: EntityPass, tablePrefix: Option<string>): Result<MappingPlan, Exception> {
    var embeddableEntries :- EmbeddableLoop(p.embeddableTypes);
    Success(MappingPlan(p.entityClassNames, EntityEntries(p.mapped, tablePrefix) + embeddableEntries, p.keyAttributeNames))
  }

  function Mapping(cs: seq<ClassInfo>, tablePrefix: Option<string>): Result<MappingPlan, Exception> {
    var p :- EntityLoop(cs, tablePrefix);
    Assemble(p, tablePrefix)
  }

  lemma {:induction false} EntityLoopFailureStays(cs: seq<ClassInfo>, n: nat, tablePrefix: Option<string>)
    requires n <= |cs| && EntityLoop(cs[..n], tablePrefix).Failure?
    ensures EntityLoop(cs, tablePrefix) == EntityLoop(cs[..n], tablePrefix)
    decreases |cs| - n
  {
    if n < |cs| {
      assert cs[..n + 1][..n] == cs[..n];
      EntityLoopFailureStays(cs, n + 1, tablePrefix);
    } else {
      assert cs[..n] == cs;
    }
  }

  lemma {:induction false} EmbeddableLoopFailureStays(ts: seq<ClassInfo>, n: nat)
    requires n <= |ts| && EmbeddableLoop(ts[..n]).Failure?
    ensures EmbeddableLoop(ts) == EmbeddableLoop(ts[..n])
    decreases |ts| - n
  {
    if n < |ts| {
      assert ts[..n + 1][..n] == ts[..n];
      EmbeddableLoopFailureStays(ts, n + 1);
    } else {
      assert ts[..n] == ts;
    }
  }

  lemma EntityLoopAdvance(cs: seq<ClassInfo>, i: nat, tablePrefix: Option<string>, p: EntityPass)
    requires i < |cs| && EntityLoop(cs[..i], tablePrefix) == Success(p)
    ensures EntityLoop(cs[..i + 1], tablePrefix) == EntityStep(p, cs[i], tablePrefix)
  {
    assert cs[..i + 1][..i] == cs[..i];
  }

  lemma EmbeddableLoopAdvance(ts: seq<ClassInfo>, i: nat, entries: seq<MappingEntry>)
    requires i < |ts| && EmbeddableLoop(ts[..i]) == Success(entries)
    ensures EmbeddableLoop(ts[..i + 1]) == EmbeddableStep(entries, ts[i])
  {
    assert ts[..i + 1][..i] == ts[..i];
  }

  /** run's first loop: key names, names passed by class, and one entity entry per other class. */
  method WriteEntities(cs: seq<ClassInfo>, tablePrefix: Option<string>)
    returns (r: Result<EntityPass, Exception>, entityClassInfo: seq<MappingEntry>)
    ensures r == EntityLoop(cs, tablePrefix)
    ensures r.Success? ==> entityClassInfo == EntityEntries(r.value.mapped, tablePrefix)
  {
    var entityClassNames: seq<string> := [];
    var embeddableTypes: seq<ClassInfo> := [];
    var keyAttributeNames: map<string, string> := map[];
    var mapped: seq<ClassInfo> := [];
    entityClassInfo := [];
    for i := 0 to |cs|
      invariant EntityLoop(cs[..i], tablePrefix) ==
        Success(EntityPass(entityClassNames, mapped, embeddableTypes, keyAttributeNames))
      invariant entityClassInfo == EntityEntries(mapped, tablePrefix)
    {
      var c := cs[i];
      EntityLoopAdvance(cs, i, tablePrefix, EntityPass(entityClassNames, mapped, embeddableTypes, keyAttributeNames));
      var keyAttributeName := GetId(c);
      if keyAttributeName.Failure? {
        EntityLoopFailureStays(cs, i + 1, tablePrefix);
        return Failure(keyAttributeName.error), entityClassInfo;
      }
      var key := keyAttributeName.value;
      keyAttributeNames := keyAttributeNames[c.name := key];
      if !c.isPersistenceEntity {
        var w := WriteAttributes(c, Some(key), true);
        var entry := EntityEntry(c.name, TableFor(tablePrefix, c), c.discriminatorValue, c.discriminatorColumn,
                                 w.value.attributes);
        assert entry == EntityEntryFor(c, tablePrefix);
        EntityEntriesStep(mapped, c, tablePrefix);
        entityClassInfo := entityClassInfo + [entry];
        mapped := mapped + [c];
        embeddableTypes := embeddableTypes + w.value.embeddableTypes;
      } else {
        entityClassNames := entityClassNames + [c.name];
      }
    }
    assert cs[..|cs|] == cs;
    r := Success(EntityPass(entityClassNames, mapped, embeddableTypes, keyAttributeNames));
  }

  /** run's second loop: one embeddable entry per collected type, failing at a nested embeddable. */
  method WriteEmbeddables(embeddableTypes: seq<ClassInfo>) returns (r: Result<seq<MappingEntry>, Exception>)
    ensures r == EmbeddableLoop(embeddableTypes)
  {
    var embeddableEntries: seq<MappingEntry> := [];
    for i := 0 to |embeddableTypes|
      invariant EmbeddableLoop(embeddableTypes[..i]) == Success(embeddableEntries)
    {
      var t := embeddableTypes[i];
      EmbeddableLoopAdvance(embeddableTypes, i, embeddableEntries);
      var w := WriteAttributes(t, None, false);
      if w.Failure? {
        EmbeddableLoopFailureStays(embeddableTypes, i + 1);
        return Failure(w.error);
      }
      embeddableEntries := embeddableEntries + [EmbeddableEntry(t.name, w.value.attributes)];
    }
    assert embeddableTypes[..|embeddableTypes|] == embeddableTypes;
    return Success(embeddableEntries);
  }

  /** run, lines 119-166: the two loops that build the orm.xml entries. */
  method BuildMapping(cs: seq<ClassInfo>, tablePrefix: Option<string>) returns (r: Result<MappingPlan, Exception>)
    ensures r == Mapping(cs, tablePrefix)
  {
    var pass, entityClassInfo := WriteEntities(cs, tablePrefix);
    if pass.Failure? {
      return Failure(pass.error);
    }
    var p := pass.value;
    var embeddableEntries := WriteEmbeddables(p.embeddableTypes);
    if embeddableEntries.Failure? {
      return Failure(embeddableEntries.error);
    }
    return Success(MappingPlan(p.entityClassNames, entityClassInfo + embeddableEntries.value, p.keyAttributeNames));
  }

  // ---------------------------------------------------------------------
  // What the two loops of run produce
  // ---------------------------------------------------------------------

  predicate FirstKeyless(cs: seq<ClassInfo>, i: int) {
    0 <= i < |cs| && KeyAttribute(cs[i]).None? && forall j :: 0 <= j < i ==> KeyAttribute(cs[j]).Some?
  }

  /** How one turn of the first loop can fail. */
  lemma EntityLoopFailStep(cs: seq<ClassInfo>, tablePrefix: Option<string>)
    requires cs != []
    ensures var front := cs[..|cs| - 1];
      var c := cs[|cs| - 1];
      (EntityLoop(cs, tablePrefix).Failure? <==> EntityLoop(front, tablePrefix).Failure? || KeyAttribute(c).None?) &&
      (EntityLoop(front, tablePrefix).Failure? ==> EntityLoop(cs, tablePrefix) == EntityLoop(front, tablePrefix)) &&
      (EntityLoop(front, tablePrefix).Success? && KeyAttribute(c).None? ==>
        EntityLoop(cs, tablePrefix) == Failure(NoKeyError(c)))
  {
  }

  /** A successful turn of the first loop found a key and followed a successful prefix. */
  lemma EntityLoopKeyedStep(cs: seq<ClassInfo>, tablePrefix: Option<string>)
    requires cs != [] && EntityLoop(cs, tablePrefix).Success?
    ensures EntityLoop(cs[..|cs| - 1], tablePrefix).Success? && KeyAttribute(cs[|cs| - 1]).Some?
  {
  }

  lemma {:induction false} EntityLoopSuccessKeyed(cs: seq<ClassInfo>, tablePrefix: Option<string>)
    requires EntityLoop(cs, tablePrefix).Success?
    ensures forall i :: 0 <= i < |cs| ==> KeyAttribute(cs[i]).Some?
  {
    if cs != [] {
      var front := cs[..|cs| - 1];
      EntityLoopKeyedStep(cs, tablePrefix);
      EntityLoopSuccessKeyed(front, tablePrefix);
      forall i | 0 <= i < |cs|
        ensures KeyAttribute(cs[i]).Some?
      {
        if i < |front| {
          assert cs[i] == front[i];
        }
      }
    }
  }

  lemma {:induction false} EntityLoopFirstKeyless(cs: seq<ClassInfo>, tablePrefix: Option<string>)
    requires EntityLoop(cs, tablePrefix).Failure?
    ensures exists i :: FirstKeyless(cs, i) && EntityLoop(cs, tablePrefix).error == NoKeyError(cs[i])
  {
    var front := cs[..|cs| - 1];
    EntityLoopFailStep(cs, tablePrefix);
    if EntityLoop(front, tablePrefix).Failure? {
      EntityLoopFirstKeyless(front, tablePrefix);
      var i :| FirstKeyless(front, i) && EntityLoop(front, tablePrefix).error == NoKeyError(front[i]);
      assert forall j :: 0 <= j <= i ==> front[j] == cs[j];
      assert FirstKeyless(cs, i);
    } else {
      EntityLoopSuccessKeyed(front, tablePrefix);
      assert forall j :: 0 <= j < |front| ==> front[j] == cs[j];
      assert FirstKeyless(cs, |cs| - 1);
    }
  }

  /** run fails in its first loop exactly when some class has no key, with getID's exception for the first such class. */
  lemma {:induction false} EntityLoopOutcome(cs: seq<ClassInfo>, tablePrefix: Option<string>)
    ensures EntityLoop(cs, tablePrefix).Failure? <==> exists i :: 0 <= i < |cs| && KeyAttribute(cs[i]).None?
    ensures EntityLoop(cs, tablePrefix).Failure? ==>
      exists i :: FirstKeyless(cs, i) && EntityLoop(cs, tablePrefix).error == NoKeyError(cs[i])
  {
    if EntityLoop(cs, tablePrefix).Failure? {
      EntityLoopFirstKeyless(cs, tablePrefix);
    } else {
      EntityLoopSuccessKeyed(cs, tablePrefix);
    }
  }

  /** The classes run writes entity entries for: those not annotated jakarta.persistence.Entity, in batch order. */
  function WrittenClasses(cs: seq<ClassInfo>): seq<ClassInfo> {
    if cs == [] then []
    else (if cs[0].isPersistenceEntity then [] else [cs[0]]) + WrittenClasses(cs[1..])
  }

  /** The names run passes to the persistence service: those of the jakarta.persistence.Entity classes, in batch order. */
  function PassedNames(cs: seq<ClassInfo>): seq<string> {
    if cs == [] then []
    else (if cs[0].isPersistenceEntity then [cs[0].name] else []) + PassedNames(cs[1..])
  }

  lemma {:induction false} FiltersCount(cs: seq<ClassInfo>)
    ensures |WrittenClasses(cs)| + |PassedNames(cs)| == |cs|
  {
    if cs != [] {
      FiltersCount(cs[1..]);
    }
  }

  lemma {:induction false} WrittenClassesMembers(cs: seq<ClassInfo>)
    ensures forall k :: k in WrittenClasses(cs) <==> k in cs && !k.isPersistenceEntity
  {
    if cs != [] {
      WrittenClassesMembers(cs[1..]);
      assert cs == [cs[0]] + cs[1..];
    }
  }

  lemma {:induction false} PassedNamesMembers(cs: seq<ClassInfo>)
    ensures forall n :: n in PassedNames(cs) <==> exists i :: 0 <= i < |cs| && cs[i].isPersistenceEntity && cs[i].name == n
  {
    if cs != [] {
      var rest := cs[1..];
      PassedNamesMembers(rest);
      forall n
        ensures n in PassedNames(cs) <==> exists i :: 0 <= i < |cs| && cs[i].isPersistenceEntity && cs[i].name == n
      {
        if n in PassedNames(rest) {
          var i :| 0 <= i < |rest| && rest[i].isPersistenceEntity && rest[i].name == n;
          assert cs[i + 1] == rest[i];
        }
        if exists i :: 0 < i < |cs| && cs[i].isPersistenceEntity && cs[i].name == n {
          var i :| 0 < i < |cs| && cs[i].isPersistenceEntity && cs[i].name == n;
          assert rest[i - 1] == cs[i];
        }
      }
    }
  }

  /** After a successful first loop every class has been seen exactly once: by name or by entry. */
  lemma {:induction false} EntityLoopCount(cs: seq<ClassInfo>, tablePrefix: Option<string>)
    requires EntityLoop(cs, tablePrefix).Success?
    ensures var p := EntityLoop(cs, tablePrefix).value;
      |p.entityClassNames| + |p.mapped| == |cs|
  {
    EntityLoopOrder(cs, tablePrefix);
    FiltersCount(cs);
  }

  /**
   * A class annotated jakarta.persistence.Entity is passed by name only;
   * every other class has its entity entry.
   */
  lemma {:induction false} EntityLoopCovers(cs: seq<ClassInfo>, tablePrefix: Option<string>)
    requires EntityLoop(cs, tablePrefix).Success?
    ensures var p := EntityLoop(cs, tablePrefix).value;
      (forall i :: 0 <= i < |cs| && cs[i].isPersistenceEntity ==> cs[i].name in p.entityClassNames) &&
      (forall i :: 0 <= i < |cs| && !cs[i].isPersistenceEntity ==> cs[i] in p.mapped)
  {
    EntityLoopOrder(cs, tablePrefix);
    WrittenClassesMembers(cs);
    PassedNamesMembers(cs);
  }

  /** Every name passed on belongs to an annotated class, every entity entry to a class that is not. */
  lemma {:induction false} EntityLoopSound(cs: seq<ClassInfo>, tablePrefix: Option<string>)
    requires EntityLoop(cs, tablePrefix).Success?
    ensures var p := EntityLoop(cs, tablePrefix).value;
      (forall n :: n in p.entityClassNames ==> exists i :: 0 <= i < |cs| && cs[i].isPersistenceEntity && cs[i].name == n) &&
      (forall k :: k in p.mapped ==> exists i :: 0 <= i < |cs| && !cs[i].isPersistenceEntity && cs[i] == k)
  {
    EntityLoopOrder(cs, tablePrefix);
    WrittenClassesMembers(cs);
    PassedNamesMembers(cs);
  }

  lemma {:induction false} WrittenClassesLast(cs: seq<ClassInfo>)
    requires cs != []
    ensures var c := cs[|cs| - 1];
      WrittenClasses(cs) == WrittenClasses(cs[..|cs| - 1]) + (if c.isPersistenceEntity then [] else [c])
  {
    if |cs| > 1 {
      WrittenClassesLast(cs[1..]);
      assert cs[1..][..|cs| - 2] == cs[..|cs| - 1][1..];
    }
  }

  lemma {:induction false} PassedNamesLast(cs: seq<ClassInfo>)
    requires cs != []
    ensures var c := cs[|cs| - 1];
      PassedNames(cs) == PassedNames(cs[..|cs| - 1]) + (if c.isPersistenceEntity then [c.name] else [])
  {
    if |cs| > 1 {
      PassedNamesLast(cs[1..]);
      assert cs[1..][..|cs| - 2] == cs[..|cs| - 1][1..];
    }
  }

  /** The key names after one more turn of the first loop. */
  lemma EntityLoopKeyStep(cs: seq<ClassInfo>, tablePrefix: Option<string>)
    requires cs != [] && EntityLoop(cs, tablePrefix).Success?
    ensures var c := cs[|cs| - 1];
      EntityLoop(cs[..|cs| - 1], tablePrefix).Success? && KeyAttribute(c).Some? &&
      EntityLoop(cs, tablePrefix).value.keyAttributeNames ==
        EntityLoop(cs[..|cs| - 1], tablePrefix).value.keyAttributeNames[c.name := KeyAttribute(c).value]
  {
  }

  /** One turn of the first loop, spelled out. */
  lemma EntityLoopStep(cs: seq<ClassInfo>, tablePrefix: Option<string>)
    requires cs != [] && EntityLoop(cs, tablePrefix).Success?
    ensures var front := cs[..|cs| - 1];
      var c := cs[|cs| - 1];
      EntityLoop(front, tablePrefix).Success? && KeyAttribute(c).Some? &&
      var p := EntityLoop(front, tablePrefix).value;
      var q := EntityLoop(cs, tablePrefix).value;
      q.keyAttributeNames == p.keyAttributeNames[c.name := KeyAttribute(c).value] &&
      (c.isPersistenceEntity ==>
        q.entityClassNames == p.entityClassNames + [c.name] && q.mapped == p.mapped &&
        q.embeddableTypes == p.embeddableTypes) &&
      (!c.isPersistenceEntity ==>
        q.entityClassNames == p.entityClassNames && q.mapped == p.mapped + [c] &&
        q.embeddableTypes == p.embeddableTypes + EmbeddedTypes(PersistentFields(c)))
  {
  }

  /**
   * The written classes are the batch's classes not annotated
   * jakarta.persistence.Entity, and the names passed are those of the
   * annotated ones, both in batch order.
   */
  lemma {:induction false} EntityLoopOrder(cs: seq<ClassInfo>, tablePrefix: Option<string>)
    requires EntityLoop(cs, tablePrefix).Success?
    ensures EntityLoop(cs, tablePrefix).value.mapped == WrittenClasses(cs)
    ensures EntityLoop(cs, tablePrefix).value.entityClassNames == PassedNames(cs)
  {
    if cs != [] {
      var front := cs[..|cs| - 1];
      EntityLoopStep(cs, tablePrefix);
      EntityLoopOrder(front, tablePrefix);
      WrittenClassesLast(cs);
      PassedNamesLast(cs);
    }
  }

  /** Every class of the batch, and nothing else, gets a key attribute name. */
  lemma {:induction false} EntityLoopKeyDomain(cs: seq<ClassInfo>, tablePrefix: Option<string>)
    requires EntityLoop(cs, tablePrefix).Success?
    ensures forall n :: n in EntityLoop(cs, tablePrefix).value.keyAttributeNames <==>
      exists i :: 0 <= i < |cs| && cs[i].name == n
  {
    if cs != [] {
      var front := cs[..|cs| - 1];
      var last := cs[|cs| - 1];
      EntityLoopKeyStep(cs, tablePrefix);
      EntityLoopKeyDomain(front, tablePrefix);
      var keys := EntityLoop(cs, tablePrefix).value.keyAttributeNames;
      forall n
        ensures n in keys <==> exists i :: 0 <= i < |cs| && cs[i].name == n
      {
        if exists i :: 0 <= i < |cs| && cs[i].name == n {
          var i :| 0 <= i < |cs| && cs[i].name == n;
          if i < |front| {
            assert front[i].name == n;
          }
        }
        if n in keys && n != last.name {
          var i :| 0 <= i < |front| && front[i].name == n;
          assert cs[i].name == n;
        }
      }
    }
  }

  /** When a class name occurs more than once in the batch, the key of its last class is kept (HashMap.put). */
  lemma {:induction false} EntityLoopKeyLastWins(cs: seq<ClassInfo>, tablePrefix: Option<string>, i: nat)
    requires EntityLoop(cs, tablePrefix).Success?
    requires i < |cs| && forall j :: i < j < |cs| ==> cs[j].name != cs[i].name
    ensures cs[i].name in EntityLoop(cs, tablePrefix).value.keyAttributeNames
    ensures Some(EntityLoop(cs, tablePrefix).value.keyAttributeNames[cs[i].name]) == KeyAttribute(cs[i])
  {
    var front := cs[..|cs| - 1];
    EntityLoopStep(cs, tablePrefix);
    if i < |front| {
      assert front[i] == cs[i];
      EntityLoopKeyLastWins(front, tablePrefix, i);
    }
  }

  /** How one turn of the second loop can fail. */
  lemma EmbeddableLoopFailStep(ts: seq<ClassInfo>)
    requires ts != []
    ensures var front := ts[..|ts| - 1];
      (EmbeddableLoop(ts).Failure? <==>
        EmbeddableLoop(front).Failure? || HasEmbeddedField(PersistentFields(ts[|ts| - 1]))) &&
      (EmbeddableLoop(ts).Failure? ==>
        EmbeddableLoop(ts).error == if EmbeddableLoop(front).Failure? then EmbeddableLoop(front).error else NestedEmbeddableError)
  {
  }

  lemma {:induction false} EmbeddableLoopSuccessFlat(ts: seq<ClassInfo>)
    requires EmbeddableLoop(ts).Success?
    ensures forall i :: 0 <= i < |ts| ==> !HasEmbeddedField(PersistentFields(ts[i]))
  {
    if ts != [] {
      var front := ts[..|ts| - 1];
      EmbeddableLoopFailStep(ts);
      EmbeddableLoopSuccessFlat(front);
      forall i | 0 <= i < |front|
        ensures !HasEmbeddedField(PersistentFields(ts[i]))
      {
        assert ts[i] == front[i];
      }
    }
  }

  lemma {:induction false} EmbeddableLoopFailureNested(ts: seq<ClassInfo>)
    requires EmbeddableLoop(ts).Failure?
    ensures exists i :: 0 <= i < |ts| && HasEmbeddedField(PersistentFields(ts[i]))
    ensures EmbeddableLoop(ts).error == NestedEmbeddableError
  {
    var front := ts[..|ts| - 1];
    EmbeddableLoopFailStep(ts);
    if EmbeddableLoop(front).Failure? {
      EmbeddableLoopFailureNested(front);
      var i :| 0 <= i < |front| && HasEmbeddedField(PersistentFields(front[i]));
      assert ts[i] == front[i];
    } else {
      assert HasEmbeddedField(PersistentFields(ts[|ts| - 1]));
    }
  }

  lemma {:induction false} EmbeddableLoopEntries(ts: seq<ClassInfo>)
    requires EmbeddableLoop(ts).Success?
    ensures var es := EmbeddableLoop(ts).value;
      |es| == |ts| && forall i :: 0 <= i < |ts| ==> es[i] == EmbeddableEntryFor(ts[i])
  {
    if ts != [] {
      var front := ts[..|ts| - 1];
      assert EmbeddableLoop(front).Success?;
      EmbeddableLoopEntries(front);
      assert forall i :: 0 <= i < |front| ==> front[i] == ts[i];
    }
  }

  /** The second loop: one embeddable entry per collected type, unless a collected type has an embedded field. */
  lemma {:induction false} EmbeddableLoopOutcome(ts: seq<ClassInfo>)
    ensures EmbeddableLoop(ts).Failure? <==> exists i :: 0 <= i < |ts| && HasEmbeddedField(PersistentFields(ts[i]))
    ensures EmbeddableLoop(ts).Failure? ==> EmbeddableLoop(ts).error == NestedEmbeddableError
    ensures EmbeddableLoop(ts).Success? ==>
      var es := EmbeddableLoop(ts).value;
      |es| == |ts| && forall i :: 0 <= i < |ts| ==> es[i] == EmbeddableEntryFor(ts[i])
  {
    if EmbeddableLoop(ts).Success? {
      EmbeddableLoopSuccessFlat(ts);
      EmbeddableLoopEntries(ts);
    } else {
      EmbeddableLoopFailureNested(ts);
    }
  }

  /** Entity entries come first, in batch order, then one embeddable entry per collected type, in discovery order. */
  lemma MappingLayout(p: EntityPass, tablePrefix: Option<string>)
    requires Assemble(p, tablePrefix).Success?
    ensures var plan := Assemble(p, tablePrefix).value;
      |plan.entries| == |p.mapped| + |p.embeddableTypes| &&
      (forall i :: 0 <= i < |p.mapped| ==> plan.entries[i] == EntityEntryFor(p.mapped[i], tablePrefix)) &&
      (forall i :: 0 <= i < |p.embeddableTypes| ==>
        plan.entries[|p.mapped| + i] == EmbeddableEntryFor(p.embeddableTypes[i])) &&
      plan.entityClassNames == p.entityClassNames &&
      plan.keyAttributeNames == p.keyAttributeNames
  {
    EmbeddableLoopOutcome(p.embeddableTypes);
  }

  /** The types of the embedded fields of c, when c is not annotated jakarta.persistence.Entity. */
  function OwnTypes(c: ClassInfo): seq<ClassInfo> {
    if c.isPersistenceEntity then [] else EmbeddedTypes(PersistentFields(c))
  }

  /** The concatenation of ss, in order. */
  function Flatten<T>(ss: seq<seq<T>>): seq<T> {
    if ss == [] then [] else Flatten(ss[..|ss| - 1]) + ss[|ss| - 1]
  }

  lemma FlattenAt<T>(ss: seq<seq<T>>, k: nat, t: T)
    requires k < |ss|
    ensures multiset(Flatten(ss[..k + 1]))[t] == multiset(Flatten(ss[..k]))[t] + multiset(ss[k])[t]
    ensures t in ss[k] ==> multiset(Flatten(ss[..k + 1]))[t] > multiset(Flatten(ss[..k]))[t]
  {
    assert ss[..k + 1][..k] == ss[..k];
  }

  lemma {:induction false} FlattenGrows<T>(ss: seq<seq<T>>, m: nat, n: nat, t: T)
    requires m <= n <= |ss|
    ensures multiset(Flatten(ss[..m]))[t] <= multiset(Flatten(ss[..n]))[t]
    decreases n - m
  {
    if m < n {
      FlattenAt(ss, n - 1, t);
      FlattenGrows(ss, m, n - 1, t);
    }
  }

  lemma FlattenPrefix<T>(ss: seq<seq<T>>, m: nat, t: T)
    requires m <= |ss|
    ensures multiset(Flatten(ss[..m]))[t] <= multiset(Flatten(ss))[t]
  {
    FlattenGrows(ss, m, |ss|, t);
    assert ss[..|ss|] == ss;
  }

  /** A value in two of the parts occurs at least twice in the whole. */
  lemma FlattenTwice<T>(ss: seq<seq<T>>, i: nat, j: nat, t: T)
    requires i < j < |ss| && t in ss[i] && t in ss[j]
    ensures multiset(Flatten(ss))[t] >= 2
  {
    FlattenAt(ss, i, t);
    FlattenGrows(ss, i + 1, j, t);
    FlattenAt(ss, j, t);
    FlattenPrefix(ss, j + 1, t);
  }

  /** The types each class of cs contributes to the collected list. */
  function TypesPerClass(cs: seq<ClassInfo>): (ss: seq<seq<ClassInfo>>)
    ensures |ss| == |cs|
    ensures forall i :: 0 <= i < |cs| ==> ss[i] == OwnTypes(cs[i])
  {
    seq(|cs|, i requires 0 <= i < |cs| => OwnTypes(cs[i]))
  }

  /** The first loop collects, in batch order, the type of every embedded field of every class it writes. */
  lemma {:induction false} EntityLoopCollects(cs: seq<ClassInfo>, tablePrefix: Option<string>)
    requires EntityLoop(cs, tablePrefix).Success?
    ensures EntityLoop(cs, tablePrefix).value.embeddableTypes == Flatten(TypesPerClass(cs))
  {
    if cs != [] {
      var front := cs[..|cs| - 1];
      EntityLoopStep(cs, tablePrefix);
      EntityLoopCollects(front, tablePrefix);
      var ss := TypesPerClass(cs);
      assert ss[..|ss| - 1] == TypesPerClass(front);
    }
  }

  lemma {:induction false} TwiceInSequence(s: seq<ClassInfo>, x: ClassInfo)
    requires multiset(s)[x] >= 2
    ensures exists a, b :: 0 <= a < b < |s| && s[a] == x && s[b] == x
  {
    var front := s[..|s| - 1];
    assert s == front + [s[|s| - 1]];
    if s[|s| - 1] == x {
      assert x in multiset(front);
      var a :| 0 <= a < |front| && front[a] == x;
      assert s[a] == x;
    } else {
      TwiceInSequence(front, x);
      var a, b :| 0 <= a < b < |front| && front[a] == x && front[b] == x;
      assert s[a] == x && s[b] == x;
    }
  }

  /** Two written classes with an embedded field of the same type put that type twice into the collected list. */
  lemma CollectedTwice(cs: seq<ClassInfo>, i: nat, j: nat, fi: nat, fj: nat)
    requires i < j < |cs| && !cs[i].isPersistenceEntity && !cs[j].isPersistenceEntity
    requires fi < |PersistentFields(cs[i])| && fj < |PersistentFields(cs[j])|
    requires PersistentFields(cs[i])[fi].fieldType.isEmbeddable
    requires PersistentFields(cs[j])[fj].fieldType == PersistentFields(cs[i])[fi].fieldType
    ensures multiset(Flatten(TypesPerClass(cs)))[PersistentFields(cs[i])[fi].fieldType] >= 2
  {
    var t := PersistentFields(cs[i])[fi].fieldType;
    EmbeddedTypesMembers(PersistentFields(cs[i]));
    EmbeddedTypesMembers(PersistentFields(cs[j]));
    var ss := TypesPerClass(cs);
    assert t in ss[i] && t in ss[j];
    FlattenTwice(ss, i, j, t);
  }

  /**
   * Embeddable types are not deduplicated: when two entity classes of the
   * batch have an embedded field of the same type, that type gets two
   * embeddable entries.
   */
  lemma SharedEmbeddableWrittenTwice(cs: seq<ClassInfo>, tablePrefix: Option<string>, i: nat, j: nat, fi: nat, fj: nat)
    requires Mapping(cs, tablePrefix).Success?
    requires i < j < |cs| && !cs[i].isPersistenceEntity && !cs[j].isPersistenceEntity
    requires fi < |PersistentFields(cs[i])| && fj < |PersistentFields(cs[j])|
    requires PersistentFields(cs[i])[fi].fieldType.isEmbeddable
    requires PersistentFields(cs[j])[fj].fieldType == PersistentFields(cs[i])[fi].fieldType
    ensures var t := PersistentFields(cs[i])[fi].fieldType;
      var entries := Mapping(cs, tablePrefix).value.entries;
      exists a, b :: 0 <= a < b < |entries| && entries[a] == EmbeddableEntryFor(t) && entries[b] == EmbeddableEntryFor(t)
  {
    var t := PersistentFields(cs[i])[fi].fieldType;
    var p := EntityLoop(cs, tablePrefix).value;
    CollectedTwice(cs, i, j, fi, fj);
    EntityLoopCollects(cs, tablePrefix);
    TwiceInSequence(p.embeddableTypes, t);
    var a, b :| 0 <= a < b < |p.embeddableTypes| && p.embeddableTypes[a] == t && p.embeddableTypes[b] == t;
    assert Mapping(cs, tablePrefix) == Assemble(p, tablePrefix);
    MappingLayout(p, tablePrefix);
    var entries := Mapping(cs, tablePrefix).value.entries;
    assert entries[|p.mapped| + a] == EmbeddableEntryFor(t) && entries[|p.mapped| + b] == EmbeddableEntryFor(t);
  }

  // ---------------------------------------------------------------------
  // The text of each entry
  // ---------------------------------------------------------------------

  /** The line separator run appends after every line. */
  const EOLN: string := "\n"

  const ColumnHead: string := "    <column name=\""
  const GeneratedValueHead: string := "    <generated-value strategy=\""
  const TableHead: string := "  <table name=\""

  /** The end of a line holding an empty element whose last attribute value is quoted. */
  const EmptyElementTail: string := "\"/>" + EOLN

  function ColumnLine(n: string): string {
    ColumnHead + n + EmptyElementTail
  }

  function GeneratedValueLine(g: string): string {
    GeneratedValueHead + g + EmptyElementTail
  }

  function ColumnLines(column: Option<string>): seq<string> {
    match column
    case None => []
    case Some(n) => [ColumnLine(n)]
  }

  function GeneratedLines(strategy: Option<string>): seq<string> {
    match strategy
    case None => []
    case Some(g) => [GeneratedValueLine(g)]
  }

  function AttributeOpening(a: AttributeMapping): string {
    "   <" + RoleElement(a.role) + " name=\"" + a.name + "\">" + EOLN
  }

  function AttributeClosing(a: AttributeMapping): string {
    "   </" + RoleElement(a.role) + ">" + EOLN
  }

  /** The lines writeAttributes appends for one field. */
  function AttributeLines(a: AttributeMapping): seq<string> {
    [AttributeOpening(a)] + ColumnLines(a.column) + GeneratedLines(a.generatedStrategy) + [AttributeClosing(a)]
  }

  function AttributeListLines(attributes: seq<AttributeMapping>): seq<string> {
    if attributes == [] then []
    else AttributeListLines(attributes[..|attributes| - 1]) + AttributeLines(attributes[|attributes| - 1])
  }

  const AttributesOpening: string := "  <attributes>" + EOLN
  const AttributesClosing: string := "  </attributes>" + EOLN

  function AttributesBlock(attributes: seq<AttributeMapping>): seq<string> {
    [AttributesOpening] + AttributeListLines(attributes) + [AttributesClosing]
  }

  function OpeningLine(e: MappingEntry): string {
    match e
    case EntityEntry(name, _, _, _, _) => " <entity class=\"" + name + "\">" + EOLN
    case EmbeddableEntry(name, _) => " <embeddable class=\"" + name + "\">" + EOLN
  }

  function ClosingLine(e: MappingEntry): string {
    match e
    case EntityEntry(_, _, _, _, _) => " </entity>" + EOLN
    case EmbeddableEntry(_, _) => " </embeddable>" + EOLN
  }

  function TableLine(n: string): string {
    TableHead + n + EmptyElementTail
  }

  const InheritanceLine: string := "  <inheritance strategy=\"SINGLE_TABLE\"/>" + EOLN

  /** The line an entity entry opens its body with. */
  function TableSpecLine(table: TableSpec): string {
    match table
    case Table(n) => TableLine(n)
    case SingleTableInheritance => InheritanceLine
  }

  function DiscriminatorValueLines(discriminatorValue: Option<string>): seq<string> {
    match discriminatorValue
    case None => []
    case Some(v) => ["  <discriminator-value>" + v + "</discriminator-value>" + EOLN]
  }

  function DiscriminatorColumnLines(discriminatorColumn: Option<string>): seq<string> {
    match discriminatorColumn
    case None => []
    case Some(v) => ["  <discriminator-column name=\"" + v + "\"/>" + EOLN]
  }

  /** The lines between the opening and closing line of an entry. */
  function BodyLines(e: MappingEntry): seq<string> {
    match e
    case EntityEntry(_, table, discriminatorValue, discriminatorColumn, attributes) =>
      [TableSpecLine(table)] + DiscriminatorValueLines(discriminatorValue) +
      DiscriminatorColumnLines(discriminatorColumn) + AttributesBlock(attributes)
    case EmbeddableEntry(_, attributes) => AttributesBlock(attributes)
  }

  function EntryLines(e: MappingEntry): seq<string> {
    [OpeningLine(e)] + BodyLines(e) + [ClosingLine(e)]
  }

  function Concat(lines: seq<string>): string {
    if lines == [] then "" else Concat(lines[..|lines| - 1]) + lines[|lines| - 1]
  }

  /** One element of the entityClassInfo array handed to the persistence service. */
  function EntryText(e: MappingEntry): string {
    Concat(EntryLines(e))
  }

  /** The entityClassInfo array: one text per entry, in entry order. */
  function Document(plan: MappingPlan): (texts: seq<string>)
    ensures |texts| == |plan.entries|
    ensures forall i :: 0 <= i < |texts| ==> texts[i] == EntryText(plan.entries[i])
  {
    seq(|plan.entries|, i requires 0 <= i < |plan.entries| => EntryText(plan.entries[i]))
  }

  lemma {:induction false} ConcatAppend(xs: seq<string>, ys: seq<string>)
    ensures Concat(xs + ys) == Concat(xs) + Concat(ys)
    decreases |ys|
  {
    if ys == [] {
      assert xs + ys == xs;
    } else {
      var front := ys[..|ys| - 1];
      assert (xs + ys)[..|xs + ys| - 1] == xs + front;
      ConcatAppend(xs, front);
    }
  }

  /** Every entry's text opens with its class element and closes with the matching end tag. */
  lemma EntryTextFraming(e: MappingEntry)
    ensures var text := EntryText(e);
      |text| >= |OpeningLine(e)| + |ClosingLine(e)| &&
      text[..|OpeningLine(e)|] == OpeningLine(e) &&
      text[|text| - |ClosingLine(e)|..] == ClosingLine(e)
  {
    var body := BodyLines(e);
    ConcatAppend([OpeningLine(e)] + body, [ClosingLine(e)]);
    ConcatAppend([OpeningLine(e)], body);
    assert Concat([OpeningLine(e)]) == OpeningLine(e) by {
      assert [OpeningLine(e)][..0] == [];
    }
    assert Concat([ClosingLine(e)]) == ClosingLine(e) by {
      assert [ClosingLine(e)][..0] == [];
    }
  }

  /** The text between a fixed head and a fixed tail is determined by the whole line. */
  lemma FramedInjective(head: string, n: string, m: string, tail: string)
    requires head + n + tail == head + m + tail
    ensures n == m
  {
    assert |n| == |m|;
    assert (head + n + tail)[|head|..|head| + |n|] == n;
    assert (head + m + tail)[|head|..|head| + |m|] == m;
  }

  /** Characters 2, 4 and 5 tell the lines of an attribute element apart. */
  lemma AttributeLineChars(a: AttributeMapping, n: string, g: string)
    ensures |AttributeOpening(a)| > 5 && AttributeOpening(a)[2] == ' ' && AttributeOpening(a)[4] != '<'
    ensures |AttributeClosing(a)| > 5 && AttributeClosing(a)[2] == ' ' && AttributeClosing(a)[4] == '/'
    ensures |ColumnLine(n)| > 5 && ColumnLine(n)[2] == ' ' && ColumnLine(n)[4] == '<' && ColumnLine(n)[5] == 'c'
    ensures |GeneratedValueLine(g)| > 5 && GeneratedValueLine(g)[2] == ' ' &&
      GeneratedValueLine(g)[4] == '<' && GeneratedValueLine(g)[5] == 'g'
  {
    assert AttributeOpening(a)[4] == RoleElement(a.role)[0];
  }

  function OrEmpty(column: Option<string>): string {
    match column
    case None => ""
    case Some(n) => n
  }

  /** A column element naming n is written exactly when the attribute's column is n. */
  lemma ColumnLineIffColumn(a: AttributeMapping, n: string)
    ensures ColumnLine(n) in AttributeLines(a) <==> a.column == Some(n)
  {
    var lines := AttributeLines(a);
    var columns := ColumnLines(a.column);
    var middle := columns + GeneratedLines(a.generatedStrategy);
    AttributeLineChars(a, n, OrEmpty(a.generatedStrategy));
    assert lines == [AttributeOpening(a)] + middle + [AttributeClosing(a)];
    if ColumnLine(n) in lines {
      var k :| 0 <= k < |lines| && lines[k] == ColumnLine(n);
      assert 0 < k < |lines| - 1;
      assert lines[k] == middle[k - 1];
      assert k - 1 < |columns|;
      FramedInjective(ColumnHead, a.column.value, n, EmptyElementTail);
    }
    if a.column == Some(n) {
      assert lines[1] == ColumnLine(n);
    }
  }

  /** A generated-value element with strategy g is written exactly when the field's @Generated strategy is g. */
  lemma GeneratedLineIffGenerated(a: AttributeMapping, g: string)
    ensures GeneratedValueLine(g) in AttributeLines(a) <==> a.generatedStrategy == Some(g)
  {
    var lines := AttributeLines(a);
    var columns := ColumnLines(a.column);
    var middle := columns + GeneratedLines(a.generatedStrategy);
    AttributeLineChars(a, OrEmpty(a.column), g);
    assert lines == [AttributeOpening(a)] + middle + [AttributeClosing(a)];
    if GeneratedValueLine(g) in lines {
      var k :| 0 <= k < |lines| && lines[k] == GeneratedValueLine(g);
      assert 0 < k < |lines| - 1;
      assert lines[k] == middle[k - 1];
      assert k - 1 >= |columns|;
      FramedInjective(GeneratedValueHead, a.generatedStrategy.value, g, EmptyElementTail);
    }
    if a.generatedStrategy == Some(g) {
      assert lines[1 + |columns|] == GeneratedValueLine(g);
    }
  }

  /** A line of the entry's own level whose element starts with 't' or 'i': a table or inheritance line. */
  predicate TableLevelLine(l: string) {
    |l| > 3 && l[2] == '<' && (l[3] == 't' || l[3] == 'i')
  }

  predicate Indented(l: string) {
    |l| > 2 && l[2] == ' '
  }

  lemma AttributeLinesIndented(a: AttributeMapping)
    ensures forall l :: l in AttributeLines(a) ==> Indented(l)
  {
    AttributeLineChars(a, OrEmpty(a.column), OrEmpty(a.generatedStrategy));
  }

  /** The attribute elements are indented deeper than the entry's own lines. */
  lemma {:induction false} AttributeListIndented(attributes: seq<AttributeMapping>)
    ensures forall l :: l in AttributeListLines(attributes) ==> Indented(l)
  {
    if attributes != [] {
      var a := attributes[|attributes| - 1];
      AttributeListIndented(attributes[..|attributes| - 1]);
      AttributeLinesIndented(a);
    }
  }

  /** The table and inheritance lines are told apart by character 3. */
  lemma TableLineChars(n: string)
    ensures TableLevelLine(TableLine(n)) && TableLine(n)[3] == 't'
    ensures TableLevelLine(InheritanceLine) && InheritanceLine[3] == 'i'
  {
  }

  lemma EntryFrameBelowLevel(e: MappingEntry)
    ensures !TableLevelLine(OpeningLine(e)) && !TableLevelLine(ClosingLine(e))
  {
  }

  lemma DiscriminatorsBelowLevel(discriminatorValue: Option<string>, discriminatorColumn: Option<string>)
    ensures forall l :: l in DiscriminatorValueLines(discriminatorValue) ==> !TableLevelLine(l)
    ensures forall l :: l in DiscriminatorColumnLines(discriminatorColumn) ==> !TableLevelLine(l)
  {
  }

  lemma AttributesBlockBelowLevel(attributes: seq<AttributeMapping>)
    ensures forall l :: l in AttributesBlock(attributes) ==> !TableLevelLine(l)
  {
    AttributeListIndented(attributes);
    assert !TableLevelLine(AttributesOpening) && !TableLevelLine(AttributesClosing);
  }

  /** In an entity entry the only table or inheritance line is the one for its table. */
  lemma EntityLevelLines(e: MappingEntry)
    requires e.EntityEntry?
    ensures forall l :: l in EntryLines(e) && TableLevelLine(l) ==> l == TableSpecLine(e.table)
  {
    var values := DiscriminatorValueLines(e.discriminatorValue);
    var columns := DiscriminatorColumnLines(e.discriminatorColumn);
    var block := AttributesBlock(e.attributes);
    EntryFrameBelowLevel(e);
    DiscriminatorsBelowLevel(e.discriminatorValue, e.discriminatorColumn);
    AttributesBlockBelowLevel(e.attributes);
    assert BodyLines(e) == [TableSpecLine(e.table)] + values + columns + block;
    forall l | l in EntryLines(e) && TableLevelLine(l)
      ensures l == TableSpecLine(e.table)
    {
      assert l in BodyLines(e);
      assert l !in values && l !in columns && l !in block;
    }
  }

  /**
   * An entity entry carries the table line naming TableName exactly when the
   * class has no @Inheritance, and the single-table inheritance line exactly
   * when it has.
   */
  lemma EntityEntryTable(c: ClassInfo, tablePrefix: Option<string>)
    ensures TableLine(TableName(tablePrefix, c)) in EntryLines(EntityEntryFor(c, tablePrefix)) <==> !c.hasInheritance
    ensures InheritanceLine in EntryLines(EntityEntryFor(c, tablePrefix)) <==> c.hasInheritance
  {
    var e := EntityEntryFor(c, tablePrefix);
    EntityLevelLines(e);
    TableLineChars(TableName(tablePrefix, c));
    assert EntryLines(e)[1] == TableSpecLine(e.table);
  }
}
