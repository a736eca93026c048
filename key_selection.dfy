/**
 * EntityDefiner.getID: which public field is the entity's identifier.
 * A field annotated @Id wins outright; otherwise a field whose upper-cased
 * name is exactly "ID"; otherwise the field, among those whose upper-cased
 * name ends in "ID", with the smallest upper-cased name.
 */
module KeySelection {
  import opened Wrappers
  import opened JavaText
  import opened Exceptions
  import opened Reflection

  function UpperName(f: FieldInfo): string {
    ToUpperCase(f.name)
  }

  predicate IsExactId(f: FieldInfo) {
    UpperName(f) == "ID"
  }

  predicate EndsInId(f: FieldInfo) {
    EndsWith(UpperName(f), "ID")
  }

  /** Field k is the first field annotated @Id. */
  ghost predicate IsFirstAnnotated(fs: seq<FieldInfo>, k: int) {
    0 <= k < |fs| && fs[k].id.Some? && forall j :: 0 <= j < k ==> fs[j].id.None?
  }

  /** Field k is the last field whose upper-cased name is "ID". */
  ghost predicate IsLastExactId(fs: seq<FieldInfo>, k: int) {
    0 <= k < |fs| && IsExactId(fs[k]) && forall j :: k < j < |fs| ==> !IsExactId(fs[j])
  }

  ghost predicate NoAnnotated(fs: seq<FieldInfo>) {
    forall j :: 0 <= j < |fs| ==> fs[j].id.None?
  }

  ghost predicate NoExactId(fs: seq<FieldInfo>) {
    forall j :: 0 <= j < |fs| ==> !IsExactId(fs[j])
  }

  ghost predicate NoneEndsInId(fs: seq<FieldInfo>) {
    forall j :: 0 <= j < |fs| ==> !EndsInId(fs[j])
  }

  /** The first field annotated @Id: the loop returns as soon as it meets one. */
  function FirstAnnotated(fs: seq<FieldInfo>): (r: Option<nat>)
    ensures r.Some? ==> IsFirstAnnotated(fs, r.value)
    ensures r.None? <==> NoAnnotated(fs)
  {
    if fs == [] then None
    else
      var earlier := FirstAnnotated(fs[..|fs| - 1]);
      assert forall j :: 0 <= j < |fs| - 1 ==> fs[..|fs| - 1][j] == fs[j];
      if earlier.Some? then earlier
      else if fs[|fs| - 1].id.Some? then Some(|fs| - 1)
      else None
  }

  /** The last field named "ID" in any case: each one found overwrites the previous choice. */
  function LastExactId(fs: seq<FieldInfo>): (r: Option<nat>)
    ensures r.Some? ==> IsLastExactId(fs, r.value)
    ensures r.None? <==> NoExactId(fs)
  {
    if fs == [] then None
    else if IsExactId(fs[|fs| - 1]) then Some(|fs| - 1)
    else
      assert forall j :: 0 <= j < |fs| - 1 ==> fs[..|fs| - 1][j] == fs[j];
      LastExactId(fs[..|fs| - 1])
  }

  /**
   * The first of the fields ending in "ID" whose upper-cased name is smallest:
   * a later field replaces the choice only when its name is strictly smaller.
   */
  function LeastEndingInId(fs: seq<FieldInfo>): (r: Option<nat>)
    ensures r.Some? ==> r.value < |fs| && IsLeastEndingInId(fs, r.value)
    ensures r.None? <==> NoneEndsInId(fs)
  {
    if fs == [] then None
    else
      var earlier := LeastEndingInId(fs[..|fs| - 1]);
      var last := fs[|fs| - 1];
      if EndsInId(last) && (earlier.None? || Less(UpperName(last), UpperName(fs[earlier.value]))) then
        LeastStep(fs, earlier);
        Some(|fs| - 1)
      else
        LeastKeep(fs, earlier);
        earlier
  }

  /** Field k ends in "ID" and no other such field has a smaller upper-cased name or the same one earlier. */
  ghost predicate IsLeastEndingInId(fs: seq<FieldInfo>, k: nat)
    requires k < |fs|
  {
    EndsInId(fs[k]) &&
    forall j :: 0 <= j < |fs| && EndsInId(fs[j]) ==>
      !Less(UpperName(fs[j]), UpperName(fs[k])) && (j < k ==> UpperName(fs[j]) != UpperName(fs[k]))
  }

  lemma LeastStep(fs: seq<FieldInfo>, earlier: Option<nat>)
    requires fs != []
    requires earlier.Some? ==> earlier.value < |fs| - 1 && IsLeastEndingInId(fs[..|fs| - 1], earlier.value)
    requires earlier.None? ==> NoneEndsInId(fs[..|fs| - 1])
    requires EndsInId(fs[|fs| - 1])
    requires earlier.Some? ==> Less(UpperName(fs[|fs| - 1]), UpperName(fs[earlier.value]))
    ensures IsLeastEndingInId(fs, |fs| - 1)
  {
    var n := |fs| - 1;
    forall j | 0 <= j < n && EndsInId(fs[j])
      ensures !Less(UpperName(fs[j]), UpperName(fs[n])) && UpperName(fs[j]) != UpperName(fs[n])
    {
      var e := earlier.value;
      assert fs[..n][j] == fs[j] && fs[..n][e] == fs[e];
      if Less(UpperName(fs[j]), UpperName(fs[n])) {
        LessTransitive(UpperName(fs[j]), UpperName(fs[n]), UpperName(fs[e]));
      }
    }
    LessIrreflexive(UpperName(fs[n]));
  }

  lemma LeastKeep(fs: seq<FieldInfo>, earlier: Option<nat>)
    requires fs != []
    requires earlier.Some? ==> earlier.value < |fs| - 1 && IsLeastEndingInId(fs[..|fs| - 1], earlier.value)
    requires earlier.None? ==> NoneEndsInId(fs[..|fs| - 1])
    requires !(EndsInId(fs[|fs| - 1]) && (earlier.None? || Less(UpperName(fs[|fs| - 1]), UpperName(fs[earlier.value]))))
    ensures earlier.Some? ==> IsLeastEndingInId(fs, earlier.value)
    ensures earlier.None? ==> NoneEndsInId(fs)
  {
    var n := |fs| - 1;
    if earlier.Some? {
      var e := earlier.value;
      forall j | 0 <= j < n && EndsInId(fs[j])
        ensures !Less(UpperName(fs[j]), UpperName(fs[e])) && (j < e ==> UpperName(fs[j]) != UpperName(fs[e]))
      {
        assert fs[..n][j] == fs[j] && fs[..n][e] == fs[e];
      }
    }
  }

  /** The index of the identifier field getID picks, if there is one. */
  function KeyIndex(fs: seq<FieldInfo>): (r: Option<nat>)
    ensures r.Some? ==> r.value < |fs|
  {
    if FirstAnnotated(fs).Some? then FirstAnnotated(fs)
    else if LastExactId(fs).Some? then LastExactId(fs)
    else LeastEndingInId(fs)
  }

  /** The name getID returns for a class, or None where it throws. */
  function KeyAttribute(c: ClassInfo): Option<string> {
    match KeyIndex(c.fields)
    case Some(k) => Some(c.fields[k].name)
    case None => None
  }

  /** getID's outcome: the chosen name, or the IllegalArgumentException it throws. */
  function KeyResult(c: ClassInfo): Result<string, Exception> {
    match KeyAttribute(c)
    case Some(n) => Success(n)
    case None => Failure(NoKeyError(c))
  }

  /** The IllegalArgumentException getID throws; Class.toString() prefixes "class ". */
  function NoKeyError(c: ClassInfo): Exception {
    IllegalArgument("class " + c.name + " lacks public field with @Id or of the form *ID")
  }

  /**
   * The identifier rule stated on its own: field k is chosen exactly when it
   * is the first @Id field, or there is no @Id field and it is the last field
   * named "ID", or there is neither and it is the first of the smallest
   * upper-cased names ending in "ID".
   */
  ghost predicate IsKeyField(fs: seq<FieldInfo>, k: int) {
    if !NoAnnotated(fs) then IsFirstAnnotated(fs, k)
    else if !NoExactId(fs) then IsLastExactId(fs, k)
    else 0 <= k < |fs| && IsLeastEndingInId(fs, k)
  }

  lemma LeastIsUnique(fs: seq<FieldInfo>, a: nat, b: nat)
    requires a < |fs| && b < |fs| && IsLeastEndingInId(fs, a) && IsLeastEndingInId(fs, b)
    ensures a == b
  {
    LessTotal(UpperName(fs[a]), UpperName(fs[b]));
  }

  /** KeyIndex computes exactly the field the rule describes; in particular the rule picks at most one field. */
  lemma KeyIndexIsTheRule(fs: seq<FieldInfo>, k: int)
    ensures KeyIndex(fs) == Some(k) <==> IsKeyField(fs, k)
  {
    if IsKeyField(fs, k) && NoAnnotated(fs) && NoExactId(fs) {
      LeastIsUnique(fs, LeastEndingInId(fs).value, k);
    }
  }

  /** getID throws exactly when no field is annotated @Id and no upper-cased field name ends in "ID". */
  lemma NoCandidateNoKey(c: ClassInfo)
    ensures KeyAttribute(c).None? <==> NoAnnotated(c.fields) && NoneEndsInId(c.fields)
  {
    forall j | 0 <= j < |c.fields| && IsExactId(c.fields[j])
      ensures EndsInId(c.fields[j])
    {
    }
  }

  lemma ExactIdIsLengthTwo(f: FieldInfo)
    ensures EndsInId(f) ==> (|f.name| == 2 <==> IsExactId(f))
  {
    if EndsInId(f) && |f.name| == 2 {
      assert UpperName(f) == UpperName(f)[|UpperName(f)| - 2..];
    }
  }

  /** How each of the three choices changes when one more field is looked at. */
  lemma ChoicesExtend(fs: seq<FieldInfo>, i: nat)
    requires i < |fs|
    ensures fs[i].id.None? ==> FirstAnnotated(fs[..i + 1]) == FirstAnnotated(fs[..i])
    ensures LastExactId(fs[..i + 1]) == if IsExactId(fs[i]) then Some(i) else LastExactId(fs[..i])
    ensures var e := LeastEndingInId(fs[..i]);
      LeastEndingInId(fs[..i + 1]) ==
        if EndsInId(fs[i]) && (e.None? || Less(UpperName(fs[i]), UpperName(fs[e.value]))) then Some(i) else e
  {
    assert fs[..i + 1][..i] == fs[..i];
  }

  /**
   * getID as the source writes it: one pass over getFields() that keeps the
   * current choice in id and, for "*ID" names, its upper-cased form in upperID.
   */
  method GetId(c: ClassInfo) returns (r: Result<string, Exception>)
    ensures r == KeyResult(c)
  {
    var fs := c.fields;
    var id: Option<string> := None;
    var upperID: Option<string> := None;
    for i := 0 to |fs|
      invariant FirstAnnotated(fs[..i]).None?
      invariant LastExactId(fs[..i]).Some? ==> id == Some(fs[LastExactId(fs[..i]).value].name)
      invariant LastExactId(fs[..i]).None? && LeastEndingInId(fs[..i]).None? ==> id.None? && upperID.None?
      invariant LastExactId(fs[..i]).None? && LeastEndingInId(fs[..i]).Some? ==>
        var k := LeastEndingInId(fs[..i]).value;
        id == Some(fs[k].name) && upperID == Some(UpperName(fs[k])) && |fs[k].name| != 2
    {
      var field := fs[i];
      if field.id.Some? {
        FirstAnnotatedPrefix(fs, i);
        return Success(field.name);
      }
      ChoicesExtend(fs, i);
      var name := ToUpperCase(field.name);
      ExactIdIsLengthTwo(field);
      if name == "ID" {
        id := Some(field.name);
      } else if (id.None? || |id.value| != 2) && EndsWith(name, "ID") {
        if upperID.None? || Less(name, upperID.value) {
          upperID := Some(name);
          id := Some(field.name);
        }
      }
    }
    assert fs[..|fs|] == fs;
    if id.None? {
      return Failure(NoKeyError(c));
    }
    return Success(id.value);
  }

  /** When the first i fields carry no @Id and field i does, field i is the first @Id field of all. */
  lemma FirstAnnotatedPrefix(fs: seq<FieldInfo>, i: nat)
    requires i < |fs| && FirstAnnotated(fs[..i]).None? && fs[i].id.Some?
    ensures FirstAnnotated(fs) == Some(i)
  {
    assert forall j :: 0 <= j < i ==> fs[..i][j] == fs[j];
  }
}
