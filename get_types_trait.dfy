/**
 * A model of the trait `GetTypesTrait` and its one operation, `getTypeStrings`:
 * the declared type of a parameter, a property, or a function's return value,
 * flattened into an ordered list of type-name strings.
 *
 * The reflection objects are modelled by their observable results:
 * `getType()` / `getReturnType()` give a `TypeDesc`, where `null` is `NoType`,
 * a `ReflectionNamedType` is `Single` and a `ReflectionUnionType` is `Union`.
 */
module GetTypesTrait {

  /** The sentinel name that stands for a nullable type. */
  const Null: string := "null"

  /** What a named type reports: `getName()` and `allowsNull()`. */
  datatype NamedType = NamedType(name: string, allowsNull: bool)

  /**
   * A declared type. A union also answers `allowsNull()`, and so does each of
   * its members; the operation reads neither, and both are kept here so that
   * the model can show that they make no difference.
   */
  datatype TypeDesc =
    | NoType
    | Single(named: NamedType)
    | Union(members: seq<NamedType>, allowsNull: bool)

  /** The three kinds of reflection object the operation accepts. */
  datatype Entity =
    | Parameter(declared: TypeDesc)
    | Property(declared: TypeDesc)
    | Function(returnType: TypeDesc)

  /** The descriptor the operation judges: a function's return type, otherwise the entity's own type. */
  function DeclaredType(e: Entity): (t: TypeDesc)
    ensures e.Function? ==> t == e.returnType
    ensures e.Parameter? || e.Property? ==> t == e.declared
  {
    match e
    case Function(t) => t
    case Parameter(t) => t
    case Property(t) => t
  }

  /** The names of a union's members, in the order `getTypes()` reports them: the `array_map` over `getTypes()`. */
  function Names(members: seq<NamedType>): (r: seq<string>)
    ensures |r| == |members|
    ensures forall i :: 0 <= i < |members| ==> r[i] == members[i].name
  {
    if members == [] then [] else [members[0].name] + Names(members[1..])
  }

  /**
   * The type-name list of a descriptor. It is empty exactly when there is no
   * type or the union has no members. A named type yields one or two names,
   * the last its own, two exactly when it allows null, and then `"null"` first.
   */
  function TypeNames(d: TypeDesc): (r: seq<string>)
    ensures r == [] <==> d.NoType? || (d.Union? && d.members == [])
    ensures d.Single? ==> 1 <= |r| <= 2 && r[|r| - 1] == d.named.name
    ensures d.Single? ==> (|r| == 2 <==> d.named.allowsNull)
    ensures d.Single? && d.named.allowsNull ==> r[0] == Null
  {
    match d
    case NoType => []
    case Union(members, _) => Names(members)
    case Single(t) => if t.allowsNull then [Null, t.name] else [t.name]
  }

  /** The type-name list of an entity: what `getTypeStrings` returns. */
  function EntityTypeNames(e: Entity): (r: seq<string>)
  {
    TypeNames(DeclaredType(e))
  }

  /**
   * `getTypeStrings` as the source runs it: an early return for no type,
   * the member names for a union, and otherwise a local list to which
   * `"null"` is appended when the type allows null, then the type's name.
   */
  method GetTypeStrings(e: Entity) returns (types: seq<string>)
    ensures types == EntityTypeNames(e)
    ensures e.Function? ==> types == TypeNames(e.returnType)
    ensures !e.Function? ==> types == TypeNames(e.declared)
  {
    var t := if e.Function? then e.returnType else e.declared;
    if t.NoType? {
      return [];
    }
    if t.Union? {
      return Names(t.members);
    }
    var returned: seq<string> := [];
    if t.named.allowsNull {
      returned := returned + [Null];
    }
    returned := returned + [t.named.name];
    return returned;
  }

  // ---------------------------------------------------------------------
  // Properties of the type-name list
  // ---------------------------------------------------------------------

  /** An untyped entity, or a function without a return type, yields the empty list. */
  lemma NoTypeYieldsEmpty(e: Entity)
    requires DeclaredType(e) == NoType
    ensures EntityTypeNames(e) == []
  {
  }

  /**
   * A function is judged by its return type and a parameter or property by its
   * own type: the three kinds agree whenever they carry the same descriptor.
   */
  lemma JudgedByDeclaredType(d: TypeDesc)
    ensures EntityTypeNames(Function(d)) == TypeNames(d)
    ensures EntityTypeNames(Parameter(d)) == TypeNames(d)
    ensures EntityTypeNames(Property(d)) == TypeNames(d)
  {
  }

  /** A union yields its member names one for one, in the order `getTypes()` reports them. */
  lemma UnionKeepsMembers(members: seq<NamedType>, allowsNull: bool)
    ensures |TypeNames(Union(members, allowsNull))| == |members|
    ensures forall i :: 0 <= i < |members| ==>
      TypeNames(Union(members, allowsNull))[i] == members[i].name
  {
  }

  /**
   * A union adds no `"null"` of its own: `"null"` appears in the result
   * exactly at the positions of members named `"null"`.
   */
  lemma UnionNullOnlyAsMember(members: seq<NamedType>, allowsNull: bool)
    ensures forall i :: 0 <= i < |members| ==>
      (TypeNames(Union(members, allowsNull))[i] == Null <==> members[i].name == Null)
    ensures Null in TypeNames(Union(members, allowsNull)) <==>
      exists i :: 0 <= i < |members| && members[i].name == Null
  {
  }

  /**
   * The union's `allowsNull()` and its members' `allowsNull()` are never read:
   * two unions whose members have the same names give the same list.
   */
  lemma UnionIgnoresNullability(ms: seq<NamedType>, ms': seq<NamedType>, a: bool, b: bool)
    requires |ms| == |ms'|
    requires forall i :: 0 <= i < |ms| ==> ms[i].name == ms'[i].name
    ensures TypeNames(Union(ms, a)) == TypeNames(Union(ms', b))
  {
  }

  /** A named type that does not allow null yields exactly its name. */
  lemma SingleNotNullable(name: string)
    ensures TypeNames(Single(NamedType(name, false))) == [name]
  {
  }

  /** A named type that allows null yields `"null"` first, then its name. */
  lemma SingleNullable(name: string)
    ensures TypeNames(Single(NamedType(name, true))) == [Null, name]
  {
  }

  /**
   * Nothing is invented: every name in the list is a declared name, or the
   * `"null"` of a nullable named type.
   */
  lemma NoInventedNames(d: TypeDesc, s: string)
    requires s in TypeNames(d)
    ensures match d
      case NoType => false
      case Single(t) => s == t.name || (s == Null && t.allowsNull)
      case Union(members, _) => exists i :: 0 <= i < |members| && members[i].name == s
  {
  }

  /**
   * The two ways a nullable type is reported differ in where `"null"` goes:
   * first for a nullable named type, at its member's position in a union; and a
   * nullable named type cannot be told from a two-member union whose first
   * member is `null`.
   */
  lemma NullPlacementAsymmetry(name: string, n: NamedType, t: NamedType, a: bool)
    requires n.name == Null && t.name == name
    ensures TypeNames(Single(NamedType(name, true)))[0] == Null
    ensures TypeNames(Union([t, n], a)) == [name, Null]
    ensures TypeNames(Union([n, t], a)) == TypeNames(Single(NamedType(name, true)))
  {
  }
}
