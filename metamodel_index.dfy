/**
 * The name index run builds for each entity of the runtime metamodel: the
 * upper-cased attribute names a repository method may use, the accessor
 * chain that reaches each attribute, and the element-collection attributes.
 * Embedded attributes are expanded breadth first through a FIFO queue.
 */
module MetamodelIndex {
  import opened JavaText

  /** Attribute.PersistentAttributeType. */
  datatype PersistentAttributeType =
    ManyToOne | OneToOne | Basic | Embedded | ManyToMany | OneToMany | ElementCollection

  /** The java.lang.reflect.Member (field or getter) through which an attribute is read. */
  datatype Member = Member(declaringClass: string, name: string)

  /**
   * A metamodel attribute. An embedded attribute carries the attributes of
   * its embeddable type (what model.embeddable(attr.getJavaType()) returns).
   */
  datatype Attribute = Attribute(
    name: string,
    kind: PersistentAttributeType,
    javaMember: Member,
    embeddableAttributes: seq<Attribute>)

  /** An EntityType of the metamodel: its name, its Java class and its attributes in getAttributes() order. */
  datatype RuntimeEntity = RuntimeEntity(name: string, javaType: string, attributes: seq<Attribute>)

  /** attributeNames, attributeAccessors and collectionAttributeNames of one entity. */
  datatype NameIndex = NameIndex(
    attributeNames: map<string, string>,
    attributeAccessors: map<string, seq<Member>>,
    collectionAttributeNames: set<string>)

  const EmptyIndex: NameIndex := NameIndex(map[], map[], {})

  /** One element of the three parallel queues: the embedded attribute, its dotted prefix, its accessor chain. */
  datatype Pending = Pending(attribute: Attribute, prefix: string, accessors: seq<Member>)

  /** A non-embedded attribute reached through embedded ones. */
  datatype Leaf = Leaf(shortName: string, fullName: string, accessors: seq<Member>, kind: PersistentAttributeType)

  // ---------------------------------------------------------------------
  // Updates of the index
  // ---------------------------------------------------------------------

  /** A direct attribute: put of its upper-cased name and of its one-member chain. */
  function PutDirect(ix: NameIndex, a: Attribute): NameIndex {
    NameIndex(
      ix.attributeNames[ToUpperCase(a.name) := a.name],
      ix.attributeAccessors[a.name := [a.javaMember]],
      if a.kind == ElementCollection then ix.collectionAttributeNames + {a.name} else ix.collectionAttributeNames)
  }

  function PutIfAbsent(m: map<string, string>, k: string, v: string): (r: map<string, string>)
    ensures k in m ==> r == m
    ensures k !in m ==> r == m[k := v]
  {
    if k in m then m else m[k := v]
  }

  /** The upper-cased underscore spelling, as in findByAddress_Street_Name. */
  function Underscored(fullName: string): string {
    ReplaceChar(ToUpperCase(fullName), '.', '_')
  }

  /** The three spellings an embedded leaf claims in the name index. */
  predicate Claims(l: Leaf, k: string) {
    k == ToUpperCase(l.shortName) || k == ToUpperCase(l.fullName) || k == Underscored(l.fullName)
  }

  /** An embedded leaf: putIfAbsent of its three spellings, put of its chain. */
  function PutLeaf(ix: NameIndex, l: Leaf): NameIndex {
    var names := PutIfAbsent(ix.attributeNames, ToUpperCase(l.shortName), l.fullName);
    var names := PutIfAbsent(names, ToUpperCase(l.fullName), l.fullName);
    var names := PutIfAbsent(names, Underscored(l.fullName), l.fullName);
    NameIndex(
      names,
      ix.attributeAccessors[l.fullName := l.accessors],
      if l.kind == ElementCollection then ix.collectionAttributeNames + {l.fullName} else ix.collectionAttributeNames)
  }

  /** The index after the first loop over getAttributes(): embedded attributes are skipped. */
  function DirectIndex(attrs: seq<Attribute>): NameIndex {
    if attrs == [] then EmptyIndex
    else
      var a := attrs[|attrs| - 1];
      var ix := DirectIndex(attrs[..|attrs| - 1]);
      if a.kind == Embedded then ix else PutDirect(ix, a)
  }

  /** The queue after the first loop: each embedded attribute with its own name and member. */
  function Seeds(attrs: seq<Attribute>): seq<Pending> {
    if attrs == [] then []
    else
      var a := attrs[|attrs| - 1];
      Seeds(attrs[..|attrs| - 1]) + (if a.kind == Embedded then [Pending(a, a.name, [a.javaMember])] else [])
  }

  function PutLeaves(ix: NameIndex, ls: seq<Leaf>): NameIndex {
    if ls == [] then ix else PutLeaf(PutLeaves(ix, ls[..|ls| - 1]), ls[|ls| - 1])
  }

  // ---------------------------------------------------------------------
  // The breadth-first walk
  // ---------------------------------------------------------------------

  /** The non-embedded attributes among attrs, reached under prefix through accessors. */
  function LeavesIn(prefix: string, accessors: seq<Member>, attrs: seq<Attribute>): seq<Leaf> {
    if attrs == [] then []
    else
      var a := attrs[|attrs| - 1];
      LeavesIn(prefix, accessors, attrs[..|attrs| - 1]) +
      (if a.kind == Embedded then [] else [Leaf(a.name, prefix + "." + a.name, accessors + [a.javaMember], a.kind)])
  }

  /** The embedded attributes among attrs, queued with their dotted path and extended chain. */
  function ChildrenIn(prefix: string, accessors: seq<Member>, attrs: seq<Attribute>): seq<Pending> {
    if attrs == [] then []
    else
      var a := attrs[|attrs| - 1];
      ChildrenIn(prefix, accessors, attrs[..|attrs| - 1]) +
      (if a.kind == Embedded then [Pending(a, prefix + "." + a.name, accessors + [a.javaMember])] else [])
  }

  function LeavesOf(p: Pending): seq<Leaf> {
    LeavesIn(p.prefix, p.accessors, p.attribute.embeddableAttributes)
  }

  function ChildrenOf(p: Pending): seq<Pending> {
    ChildrenIn(p.prefix, p.accessors, p.attribute.embeddableAttributes)
  }

  function Size(a: Attribute): nat
    decreases a, 1
  {
    1 + SizeAll(a.embeddableAttributes)
  }

  function SizeAll(attrs: seq<Attribute>): nat
    decreases attrs, 0
  {
    if attrs == [] then 0 else SizeAll(attrs[..|attrs| - 1]) + Size(attrs[|attrs| - 1])
  }

  /** What is left to walk: the sizes of the queued attributes. */
  function Weight(q: seq<Pending>): nat {
    if q == [] then 0 else Weight(q[..|q| - 1]) + Size(q[|q| - 1].attribute)
  }

  lemma {:induction false} WeightAppend(q: seq<Pending>, r: seq<Pending>)
    ensures Weight(q + r) == Weight(q) + Weight(r)
    decreases |r|
  {
    if r == [] {
      assert q + r == q;
    } else {
      assert (q + r)[..|q + r| - 1] == q + r[..|r| - 1];
      WeightAppend(q, r[..|r| - 1]);
    }
  }

  lemma {:induction false} ChildrenWeight(prefix: string, accessors: seq<Member>, attrs: seq<Attribute>)
    ensures Weight(ChildrenIn(prefix, accessors, attrs)) <= SizeAll(attrs)
  {
    if attrs != [] {
      var a := attrs[|attrs| - 1];
      var front := ChildrenIn(prefix, accessors, attrs[..|attrs| - 1]);
      ChildrenWeight(prefix, accessors, attrs[..|attrs| - 1]);
      if a.kind == Embedded {
        WeightAppend(front, [Pending(a, prefix + "." + a.name, accessors + [a.javaMember])]);
        assert [Pending(a, prefix + "." + a.name, accessors + [a.javaMember])][..0] == [];
      } else {
        assert front + [] == front;
      }
    }
  }

  /** Polling the head and queueing its embedded children makes the queue lighter. */
  lemma PollDecreases(q: seq<Pending>)
    requires q != []
    ensures Weight(q[1..] + ChildrenOf(q[0])) < Weight(q)
  {
    WeightAppend([q[0]], q[1..]);
    assert [q[0]] + q[1..] == q;
    assert [q[0]][..0] == [];
    WeightAppend(q[1..], ChildrenOf(q[0]));
    ChildrenWeight(q[0].prefix, q[0].accessors, q[0].attribute.embeddableAttributes);
  }

  /** The leaves the queue loop visits, in visiting order. */
  function Expansion(q: seq<Pending>): seq<Leaf>
    decreases Weight(q)
  {
    if q == [] then []
    else
      PollDecreases(q);
      LeavesOf(q[0]) + Expansion(q[1..] + ChildrenOf(q[0]))
  }

  lemma ExpansionStep(q: seq<Pending>)
    requires q != []
    ensures Weight(q[1..] + ChildrenOf(q[0])) < Weight(q)
    ensures Expansion(q) == LeavesOf(q[0]) + Expansion(q[1..] + ChildrenOf(q[0]))
  {
    PollDecreases(q);
  }

  /** The index run builds for an entity with the attributes attrs. */
  function Reconciled(attrs: seq<Attribute>): NameIndex {
    PutLeaves(DirectIndex(attrs), Expansion(Seeds(attrs)))
  }

  lemma LeavesStep(prefix: string, accessors: seq<Member>, attrs: seq<Attribute>, j: nat)
    requires j < |attrs|
    ensures LeavesIn(prefix, accessors, attrs[..j + 1]) == LeavesIn(prefix, accessors, attrs[..j]) +
      (if attrs[j].kind == Embedded then []
       else [Leaf(attrs[j].name, prefix + "." + attrs[j].name, accessors + [attrs[j].javaMember], attrs[j].kind)])
    ensures ChildrenIn(prefix, accessors, attrs[..j + 1]) == ChildrenIn(prefix, accessors, attrs[..j]) +
      (if attrs[j].kind == Embedded then [Pending(attrs[j], prefix + "." + attrs[j].name, accessors + [attrs[j].javaMember])]
       else [])
  {
    assert attrs[..j + 1][..j] == attrs[..j];
  }

  lemma PutLeavesAppend(ix: NameIndex, ls: seq<Leaf>, l: Leaf)
    ensures PutLeaves(ix, ls + [l]) == PutLeaf(PutLeaves(ix, ls), l)
  {
    assert (ls + [l])[..|ls|] == ls;
  }

  /** Lines 218-231 of run: the three putIfAbsent calls, the accessor chain and the collection set for one leaf. */
  method RecordLeaf(attributeNames: map<string, string>, attributeAccessors: map<string, seq<Member>>,
                    collectionAttributeNames: set<string>, leaf: Leaf)
    returns (names: map<string, string>, accessors: map<string, seq<Member>>, collections: set<string>)
    ensures NameIndex(names, accessors, collections) ==
      PutLeaf(NameIndex(attributeNames, attributeAccessors, collectionAttributeNames), leaf)
  {
    names := attributeNames;
    var fullAttributeName := leaf.fullName;
    var embeddableAttributeName := ToUpperCase(leaf.shortName);
    if embeddableAttributeName !in names {
      names := names[embeddableAttributeName := fullAttributeName];
    }
    ghost var names1 := names;
    embeddableAttributeName := ToUpperCase(fullAttributeName);
    if embeddableAttributeName !in names {
      names := names[embeddableAttributeName := fullAttributeName];
    }
    ghost var names2 := names;
    embeddableAttributeName := ReplaceChar(embeddableAttributeName, '.', '_');
    if embeddableAttributeName !in names {
      names := names[embeddableAttributeName := fullAttributeName];
    }
    assert names1 == PutIfAbsent(attributeNames, ToUpperCase(leaf.shortName), leaf.fullName);
    assert names2 == PutIfAbsent(names1, ToUpperCase(leaf.fullName), leaf.fullName);
    assert names == PutIfAbsent(names2, Underscored(leaf.fullName), leaf.fullName);
    accessors := attributeAccessors[fullAttributeName := leaf.accessors];
    collections := collectionAttributeNames;
    if leaf.kind == ElementCollection {
      collections := collections + {fullAttributeName};
    }
  }

  lemma {:induction false} PutLeavesConcat(ix: NameIndex, ls: seq<Leaf>, ms: seq<Leaf>)
    ensures PutLeaves(ix, ls + ms) == PutLeaves(PutLeaves(ix, ls), ms)
    decreases |ms|
  {
    if ms == [] {
      assert ls + ms == ls;
    } else {
      assert (ls + ms)[..|ls + ms| - 1] == ls + ms[..|ms| - 1];
      PutLeavesConcat(ix, ls, ms[..|ms| - 1]);
    }
  }

  /**
   * Lines 202-233 of run for one polled element: each attribute of its
   * embeddable type is either queued (embedded) or recorded as a leaf.
   */
  method VisitEmbeddable(pending: Pending, attributeNames: map<string, string>,
                         attributeAccessors: map<string, seq<Member>>, collectionAttributeNames: set<string>,
                         embeddables: seq<Pending>)
    returns (names: map<string, string>, accessors: map<string, seq<Member>>, collections: set<string>,
             queue: seq<Pending>)
    ensures NameIndex(names, accessors, collections) ==
      PutLeaves(NameIndex(attributeNames, attributeAccessors, collectionAttributeNames), LeavesOf(pending))
    ensures queue == embeddables + ChildrenOf(pending)
  {
    names, accessors, collections, queue := attributeNames, attributeAccessors, collectionAttributeNames, embeddables;
    ghost var start := NameIndex(attributeNames, attributeAccessors, collectionAttributeNames);
    var prefix := pending.prefix;
    var prefixAccessors := pending.accessors;
    var embAttrs := pending.attribute.embeddableAttributes;
    assert embAttrs[..0] == [];
    for j := 0 to |embAttrs|
      invariant queue == embeddables + ChildrenIn(prefix, prefixAccessors, embAttrs[..j])
      invariant NameIndex(names, accessors, collections) == PutLeaves(start, LeavesIn(prefix, prefixAccessors, embAttrs[..j]))
    {
      var embAttr := embAttrs[j];
      LeavesStep(prefix, prefixAccessors, embAttrs, j);
      var embeddableAttributeName := embAttr.name;
      var fullAttributeName := prefix + "." + embeddableAttributeName;
      var embAccessors := prefixAccessors + [embAttr.javaMember];
      if embAttr.kind == Embedded {
        assert LeavesIn(prefix, prefixAccessors, embAttrs[..j + 1]) == LeavesIn(prefix, prefixAccessors, embAttrs[..j]);
        queue := queue + [Pending(embAttr, fullAttributeName, embAccessors)];
      } else {
        assert ChildrenIn(prefix, prefixAccessors, embAttrs[..j + 1]) == ChildrenIn(prefix, prefixAccessors, embAttrs[..j]);
        var leaf := Leaf(embeddableAttributeName, fullAttributeName, embAccessors, embAttr.kind);
        PutLeavesAppend(start, LeavesIn(prefix, prefixAccessors, embAttrs[..j]), leaf);
        names, accessors, collections := RecordLeaf(names, accessors, collections, leaf);
      }
    }
    assert embAttrs[..|embAttrs|] == embAttrs;
  }

  lemma DirectStep(attrs: seq<Attribute>, i: nat)
    requires i < |attrs|
    ensures DirectIndex(attrs[..i + 1]) ==
      if attrs[i].kind == Embedded then DirectIndex(attrs[..i]) else PutDirect(DirectIndex(attrs[..i]), attrs[i])
    ensures Seeds(attrs[..i + 1]) ==
      Seeds(attrs[..i]) + if attrs[i].kind == Embedded then [Pending(attrs[i], attrs[i].name, [attrs[i].javaMember])] else []
  {
    assert attrs[..i + 1][..i] == attrs[..i];
  }

  /** run, lines 180-193: the entity's own attributes go into the index; embedded ones are queued. */
  method IndexAttributes(attributes: seq<Attribute>)
    returns (attributeNames: map<string, string>, attributeAccessors: map<string, seq<Member>>,
             collectionAttributeNames: set<string>, embeddables: seq<Pending>)
    ensures NameIndex(attributeNames, attributeAccessors, collectionAttributeNames) == DirectIndex(attributes)
    ensures embeddables == Seeds(attributes)
  {
    attributeNames, attributeAccessors, collectionAttributeNames, embeddables := map[], map[], {}, [];
    for i := 0 to |attributes|
      invariant NameIndex(attributeNames, attributeAccessors, collectionAttributeNames) == DirectIndex(attributes[..i])
      invariant embeddables == Seeds(attributes[..i])
    {
      var attr := attributes[i];
      DirectStep(attributes, i);
      var attributeName := attr.name;
      if attr.kind == Embedded {
        embeddables := embeddables + [Pending(attr, attributeName, [attr.javaMember])];
      } else {
        attributeNames := attributeNames[ToUpperCase(attributeName) := attributeName];
        attributeAccessors := attributeAccessors[attributeName := [attr.javaMember]];
        if attr.kind == ElementCollection {
          collectionAttributeNames := collectionAttributeNames + {attributeName};
        }
      }
    }
    assert attributes[..|attributes|] == attributes;
  }

  /** run, lines 180-234: the index of one entity, built with maps and a FIFO queue updated in place. */
  method Reconcile(attributes: seq<Attribute>) returns (ix: NameIndex)
    ensures ix == Reconciled(attributes)
  {
    var attributeNames, attributeAccessors, collectionAttributeNames, embeddables := IndexAttributes(attributes);
    ghost var target := PutLeaves(NameIndex(attributeNames, attributeAccessors, collectionAttributeNames), Expansion(embeddables));
    while embeddables != []
      invariant PutLeaves(NameIndex(attributeNames, attributeAccessors, collectionAttributeNames), Expansion(embeddables)) == target
      decreases Weight(embeddables)
    {
      var pending := embeddables[0];
      ExpansionStep(embeddables);
      PutLeavesConcat(NameIndex(attributeNames, attributeAccessors, collectionAttributeNames),
        LeavesOf(pending), Expansion(embeddables[1..] + ChildrenOf(pending)));
      attributeNames, attributeAccessors, collectionAttributeNames, embeddables :=
        VisitEmbeddable(pending, attributeNames, attributeAccessors, collectionAttributeNames, embeddables[1..]);
    }
    return NameIndex(attributeNames, attributeAccessors, collectionAttributeNames);
  }

  // ---------------------------------------------------------------------
  // What the index promises
  // ---------------------------------------------------------------------

  /** One leaf: its three spellings are added only where absent, its chain is put. */
  lemma PutLeafFacts(ix: NameIndex, l: Leaf)
    ensures var r := PutLeaf(ix, l);
      (forall k :: k in r.attributeNames <==> k in ix.attributeNames || Claims(l, k)) &&
      (forall k :: k in ix.attributeNames ==> r.attributeNames[k] == ix.attributeNames[k]) &&
      (forall k :: k !in ix.attributeNames && Claims(l, k) ==> r.attributeNames[k] == l.fullName) &&
      r.attributeAccessors == ix.attributeAccessors[l.fullName := l.accessors] &&
      (forall k :: k in r.collectionAttributeNames <==>
        k in ix.collectionAttributeNames || (l.kind == ElementCollection && k == l.fullName))
  {
  }

  /** putIfAbsent never overwrites: every name already in the index keeps its target. */
  lemma {:induction false} PutLeavesKeepsNames(ix: NameIndex, ls: seq<Leaf>)
    ensures forall k :: k in ix.attributeNames ==>
      k in PutLeaves(ix, ls).attributeNames && PutLeaves(ix, ls).attributeNames[k] == ix.attributeNames[k]
  {
    if ls != [] {
      PutLeavesKeepsNames(ix, ls[..|ls| - 1]);
      PutLeafFacts(PutLeaves(ix, ls[..|ls| - 1]), ls[|ls| - 1]);
    }
  }

  /** The names, chains and collections leaves add: nothing beyond what some leaf claims. */
  lemma {:induction false} PutLeavesKeys(ix: NameIndex, ls: seq<Leaf>)
    ensures forall k :: k in PutLeaves(ix, ls).attributeNames <==>
      k in ix.attributeNames || exists l :: l in ls && Claims(l, k)
    ensures forall k :: k in PutLeaves(ix, ls).attributeAccessors <==>
      k in ix.attributeAccessors || exists l :: l in ls && l.fullName == k
    ensures forall k :: k in PutLeaves(ix, ls).collectionAttributeNames <==>
      k in ix.collectionAttributeNames || exists l :: l in ls && l.kind == ElementCollection && l.fullName == k
  {
    if ls != [] {
      var front := ls[..|ls| - 1];
      PutLeavesKeys(ix, front);
      PutLeafFacts(PutLeaves(ix, front), ls[|ls| - 1]);
      assert ls == front + [ls[|ls| - 1]];
    }
  }

  /** A name not yet in the index goes to the first leaf that claims it. */
  lemma {:induction false} PutLeavesFirstClaim(ix: NameIndex, ls: seq<Leaf>, k: string, i: nat)
    requires k !in ix.attributeNames && i < |ls| && Claims(ls[i], k)
    requires forall j :: 0 <= j < i ==> !Claims(ls[j], k)
    ensures k in PutLeaves(ix, ls).attributeNames && PutLeaves(ix, ls).attributeNames[k] == ls[i].fullName
  {
    var front := ls[..|ls| - 1];
    if i == |ls| - 1 {
      PutLeavesKeys(ix, front);
      assert forall l :: l in front ==> !Claims(l, k);
      PutLeafFacts(PutLeaves(ix, front), ls[i]);
    } else {
      assert front[i] == ls[i] && forall j :: 0 <= j < i ==> front[j] == ls[j];
      PutLeavesFirstClaim(ix, front, k, i);
      PutLeafFacts(PutLeaves(ix, front), ls[|ls| - 1]);
    }
  }

  /** The first loop: a later direct attribute with the same upper-cased name overwrites (put). */
  lemma {:induction false} DirectNameLastWins(attrs: seq<Attribute>, i: nat)
    requires i < |attrs| && attrs[i].kind != Embedded
    requires forall j :: i < j < |attrs| && attrs[j].kind != Embedded ==>
      ToUpperCase(attrs[j].name) != ToUpperCase(attrs[i].name)
    ensures ToUpperCase(attrs[i].name) in DirectIndex(attrs).attributeNames
    ensures DirectIndex(attrs).attributeNames[ToUpperCase(attrs[i].name)] == attrs[i].name
  {
    var front := attrs[..|attrs| - 1];
    if i < |front| {
      assert front[i] == attrs[i];
      assert forall j :: i < j < |front| ==> front[j] == attrs[j];
      DirectNameLastWins(front, i);
    }
  }

  /** The keys of the index after the first loop come from direct attributes only. */
  lemma {:induction false} DirectKeys(attrs: seq<Attribute>)
    ensures forall k :: k in DirectIndex(attrs).attributeNames <==>
      exists i :: 0 <= i < |attrs| && attrs[i].kind != Embedded && ToUpperCase(attrs[i].name) == k
    ensures forall k :: k in DirectIndex(attrs).attributeAccessors <==>
      exists i :: 0 <= i < |attrs| && attrs[i].kind != Embedded && attrs[i].name == k
    ensures forall k :: k in DirectIndex(attrs).collectionAttributeNames <==>
      exists i :: 0 <= i < |attrs| && attrs[i].kind == ElementCollection && attrs[i].name == k
  {
    if attrs != [] {
      var front := attrs[..|attrs| - 1];
      DirectKeys(front);
      assert forall i :: 0 <= i < |front| ==> front[i] == attrs[i];
      assert attrs[|attrs| - 1] == attrs[|front|];
    }
  }

  /**
   * A direct attribute keeps its upper-cased name in the final index (unless
   * a later direct attribute has the same upper-cased name): embedded leaves
   * come after it and only add absent names.
   */
  lemma ReconciledDirectName(attrs: seq<Attribute>, i: nat)
    requires i < |attrs| && attrs[i].kind != Embedded
    requires forall j :: i < j < |attrs| && attrs[j].kind != Embedded ==>
      ToUpperCase(attrs[j].name) != ToUpperCase(attrs[i].name)
    ensures ToUpperCase(attrs[i].name) in Reconciled(attrs).attributeNames
    ensures Reconciled(attrs).attributeNames[ToUpperCase(attrs[i].name)] == attrs[i].name
  {
    DirectNameLastWins(attrs, i);
    PutLeavesKeepsNames(DirectIndex(attrs), Expansion(Seeds(attrs)));
  }

  /**
   * A spelling no direct attribute uses goes to the first embedded leaf, in
   * breadth-first order, that claims it.
   */
  lemma ReconciledFirstClaim(attrs: seq<Attribute>, k: string, i: nat)
    requires forall j :: 0 <= j < |attrs| && attrs[j].kind != Embedded ==> ToUpperCase(attrs[j].name) != k
    requires i < |Expansion(Seeds(attrs))| && Claims(Expansion(Seeds(attrs))[i], k)
    requires forall j :: 0 <= j < i ==> !Claims(Expansion(Seeds(attrs))[j], k)
    ensures k in Reconciled(attrs).attributeNames
    ensures Reconciled(attrs).attributeNames[k] == Expansion(Seeds(attrs))[i].fullName
  {
    DirectKeys(attrs);
    PutLeavesFirstClaim(DirectIndex(attrs), Expansion(Seeds(attrs)), k, i);
  }

  /** Every target of the name index has an accessor chain. */
  ghost predicate ValuesHaveAccessors(ix: NameIndex) {
    forall k :: k in ix.attributeNames ==> ix.attributeNames[k] in ix.attributeAccessors
  }

  lemma {:induction false} DirectValuesHaveAccessors(attrs: seq<Attribute>)
    ensures ValuesHaveAccessors(DirectIndex(attrs))
  {
    if attrs != [] {
      DirectValuesHaveAccessors(attrs[..|attrs| - 1]);
    }
  }

  lemma {:induction false} PutLeavesValuesHaveAccessors(ix: NameIndex, ls: seq<Leaf>)
    requires ValuesHaveAccessors(ix)
    ensures ValuesHaveAccessors(PutLeaves(ix, ls))
  {
    if ls != [] {
      PutLeavesValuesHaveAccessors(ix, ls[..|ls| - 1]);
      PutLeafFacts(PutLeaves(ix, ls[..|ls| - 1]), ls[|ls| - 1]);
    }
  }

  lemma ReconciledValuesHaveAccessors(attrs: seq<Attribute>)
    ensures ValuesHaveAccessors(Reconciled(attrs))
  {
    DirectValuesHaveAccessors(attrs);
    PutLeavesValuesHaveAccessors(DirectIndex(attrs), Expansion(Seeds(attrs)));
  }

  /** Attribute names are Java identifiers: no dot, at any depth. */
  ghost predicate DotFree(a: Attribute) {
    '.' !in a.name && forall i :: 0 <= i < |a.embeddableAttributes| ==> DotFree(a.embeddableAttributes[i])
  }

  /** A queued element whose chain has one member per segment of its dotted path. */
  ghost predicate WellFormed(p: Pending) {
    DotFree(p.attribute) && |p.accessors| == Segments(p.prefix)
  }

  lemma PathSegments(prefix: string, name: string)
    requires '.' !in name
    ensures Segments(prefix + "." + name) == Segments(prefix) + 1
  {
    OccurrencesAppend(prefix + ".", name, '.');
    OccurrencesAppend(prefix, ".", '.');
    OccurrencesAbsent(name, '.');
    assert "."[..0] == "";
  }

  /** Each leaf's chain is its parent's chain plus its own member, and its path is the parent's path plus its name. */
  lemma {:induction false} LeavesExtendParent(prefix: string, accessors: seq<Member>, attrs: seq<Attribute>)
    ensures forall l :: l in LeavesIn(prefix, accessors, attrs) ==>
      l.kind != Embedded && l.fullName == prefix + "." + l.shortName &&
      |l.accessors| == |accessors| + 1 && l.accessors[..|accessors|] == accessors &&
      exists i :: 0 <= i < |attrs| && l.shortName == attrs[i].name && l.accessors[|accessors|] == attrs[i].javaMember
  {
    if attrs != [] {
      var front := attrs[..|attrs| - 1];
      LeavesExtendParent(prefix, accessors, front);
      assert forall i :: 0 <= i < |front| ==> front[i] == attrs[i];
      assert attrs[|attrs| - 1] == attrs[|front|];
    }
  }

  lemma {:induction false} ChildrenWellFormed(prefix: string, accessors: seq<Member>, attrs: seq<Attribute>)
    requires |accessors| == Segments(prefix)
    requires forall i :: 0 <= i < |attrs| ==> DotFree(attrs[i])
    ensures forall c :: c in ChildrenIn(prefix, accessors, attrs) ==> WellFormed(c)
  {
    if attrs != [] {
      var front := attrs[..|attrs| - 1];
      var a := attrs[|attrs| - 1];
      assert forall i :: 0 <= i < |front| ==> front[i] == attrs[i];
      ChildrenWellFormed(prefix, accessors, front);
      PathSegments(prefix, a.name);
    }
  }

  lemma LeafChainLengths(p: Pending)
    requires WellFormed(p)
    ensures forall l :: l in LeavesOf(p) ==> |l.accessors| == Segments(l.fullName)
  {
    var attrs := p.attribute.embeddableAttributes;
    LeavesExtendParent(p.prefix, p.accessors, attrs);
    forall l | l in LeavesOf(p)
      ensures |l.accessors| == Segments(l.fullName)
    {
      var i :| 0 <= i < |attrs| && l.shortName == attrs[i].name && l.accessors[|p.accessors|] == attrs[i].javaMember;
      assert DotFree(attrs[i]);
      PathSegments(p.prefix, l.shortName);
    }
  }

  /** Every leaf the walk visits has one chain member per path segment; none is itself embedded. */
  lemma {:induction false} ExpansionChainLengths(q: seq<Pending>)
    requires forall i :: 0 <= i < |q| ==> WellFormed(q[i])
    ensures forall l :: l in Expansion(q) ==> |l.accessors| == Segments(l.fullName)
    decreases Weight(q)
  {
    if q != [] {
      var p := q[0];
      ExpansionStep(q);
      LeafChainLengths(p);
      ChildrenWellFormed(p.prefix, p.accessors, p.attribute.embeddableAttributes);
      var next := q[1..] + ChildrenOf(p);
      assert forall i :: 0 <= i < |next| ==> next[i] in q[1..] || next[i] in ChildrenOf(p);
      ExpansionChainLengths(next);
    }
  }

  /** Every leaf the walk visits is a non-embedded attribute with a dotted path. */
  lemma {:induction false} ExpansionLeafShape(q: seq<Pending>)
    ensures forall l :: l in Expansion(q) ==> l.kind != Embedded && '.' in l.fullName
    decreases Weight(q)
  {
    if q != [] {
      var p := q[0];
      ExpansionStep(q);
      LeavesExtendParent(p.prefix, p.accessors, p.attribute.embeddableAttributes);
      forall l | l in LeavesOf(p)
        ensures '.' in l.fullName
      {
        assert l.fullName[|p.prefix|] == '.';
      }
      ExpansionLeafShape(q[1..] + ChildrenOf(p));
    }
  }

  lemma {:induction false} SeedsWellFormed(attrs: seq<Attribute>)
    requires forall i :: 0 <= i < |attrs| ==> DotFree(attrs[i])
    ensures forall p :: p in Seeds(attrs) ==> WellFormed(p)
  {
    if attrs != [] {
      var front := attrs[..|attrs| - 1];
      var a := attrs[|attrs| - 1];
      assert forall i :: 0 <= i < |front| ==> front[i] == attrs[i];
      SeedsWellFormed(front);
      OccurrencesAbsent(a.name, '.');
    }
  }

  ghost predicate ChainsMatchPaths(ix: NameIndex) {
    forall k :: k in ix.attributeAccessors ==> |ix.attributeAccessors[k]| == Segments(k)
  }

  lemma {:induction false} DirectChains(attrs: seq<Attribute>)
    requires forall i :: 0 <= i < |attrs| ==> DotFree(attrs[i])
    ensures ChainsMatchPaths(DirectIndex(attrs))
  {
    if attrs != [] {
      var front := attrs[..|attrs| - 1];
      assert forall i :: 0 <= i < |front| ==> front[i] == attrs[i];
      DirectChains(front);
      OccurrencesAbsent(attrs[|attrs| - 1].name, '.');
    }
  }

  lemma {:induction false} PutLeavesChains(ix: NameIndex, ls: seq<Leaf>)
    requires ChainsMatchPaths(ix)
    requires forall l :: l in ls ==> |l.accessors| == Segments(l.fullName)
    ensures ChainsMatchPaths(PutLeaves(ix, ls))
  {
    if ls != [] {
      var front := ls[..|ls| - 1];
      assert forall l :: l in front ==> l in ls;
      PutLeavesChains(ix, front);
      PutLeafFacts(PutLeaves(ix, front), ls[|ls| - 1]);
    }
  }

  /**
   * With dot-free attribute names, every accessor chain has exactly one
   * member per segment of the (possibly dotted) name it is stored under.
   */
  lemma ReconciledChainLengths(attrs: seq<Attribute>)
    requires forall i :: 0 <= i < |attrs| ==> DotFree(attrs[i])
    ensures ChainsMatchPaths(Reconciled(attrs))
  {
    DirectChains(attrs);
    SeedsWellFormed(attrs);
    var seeds := Seeds(attrs);
    assert forall i :: 0 <= i < |seeds| ==> seeds[i] in seeds;
    ExpansionChainLengths(seeds);
    PutLeavesChains(DirectIndex(attrs), Expansion(seeds));
  }

  /** The collection set holds exactly the element-collection attributes, by name or by dotted path. */
  lemma ReconciledCollections(attrs: seq<Attribute>)
    ensures forall k :: k in Reconciled(attrs).collectionAttributeNames <==>
      (exists i :: 0 <= i < |attrs| && attrs[i].kind == ElementCollection && attrs[i].name == k) ||
      (exists l :: l in Expansion(Seeds(attrs)) && l.kind == ElementCollection && l.fullName == k)
  {
    DirectKeys(attrs);
    PutLeavesKeys(DirectIndex(attrs), Expansion(Seeds(attrs)));
  }

  /** Accessor chains are stored under the names of direct non-embedded attributes and the paths of leaves only. */
  lemma ReconciledAccessorKeys(attrs: seq<Attribute>)
    ensures forall k :: k in Reconciled(attrs).attributeAccessors <==>
      (exists i :: 0 <= i < |attrs| && attrs[i].kind != Embedded && attrs[i].name == k) ||
      (exists l :: l in Expansion(Seeds(attrs)) && l.fullName == k)
  {
    DirectKeys(attrs);
    PutLeavesKeys(DirectIndex(attrs), Expansion(Seeds(attrs)));
  }

  /** An embedded attribute with a name of its own is neither given an accessor chain nor listed as a collection. */
  lemma EmbeddedNotIndexed(attrs: seq<Attribute>, i: nat)
    requires i < |attrs| && attrs[i].kind == Embedded && '.' !in attrs[i].name
    requires forall j :: 0 <= j < |attrs| && j != i ==> attrs[j].name != attrs[i].name
    ensures attrs[i].name !in Reconciled(attrs).attributeAccessors
    ensures attrs[i].name !in Reconciled(attrs).collectionAttributeNames
  {
    ReconciledAccessorKeys(attrs);
    ReconciledCollections(attrs);
    ExpansionLeafShape(Seeds(attrs));
  }
}
