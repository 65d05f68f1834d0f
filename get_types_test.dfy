/**
 * The fixtures of the test suite, as descriptors: the methods `withoutTypes`,
 * `withSimpleTypes`, `withNullableSimpleTypes`, `withUnionTypes` and
 * `withNullableUnionTypes`, each with one parameter typed as its return value.
 * The suite compares results as multisets; the lemmas below state the exact
 * sequences the operation yields and how they relate to the expected values.
 */
module GetTypesTest {
  import opened GetTypesTrait

  const Str: NamedType := NamedType("string", false)
  const Int: NamedType := NamedType("int", false)
  const NullMember: NamedType := NamedType(Null, true)

  /** `?string`: a single named type that allows null. */
  const NullableString: TypeDesc := Single(NamedType("string", true))
  /** `string|int`. */
  const StringOrInt: TypeDesc := Union([Str, Int], false)
  /** `string|int|null`: the union itself allows null, through its `null` member. */
  const StringOrIntOrNull: TypeDesc := Union([Str, Int, NullMember], true)

  /** `withoutTypes`: no type on the parameter nor on the return value. */
  lemma WithoutTypes()
    ensures EntityTypeNames(Parameter(NoType)) == []
    ensures EntityTypeNames(Function(NoType)) == []
  {
  }

  /** `withSimpleTypes`: `string` gives `["string"]`. */
  lemma WithSimpleTypes()
    ensures EntityTypeNames(Parameter(Single(Str))) == ["string"]
    ensures EntityTypeNames(Function(Single(Str))) == ["string"]
  {
  }

  /**
   * `withNullableSimpleTypes`: `?string` gives `["null", "string"]`. The suite
   * expects `['string', 'null']` and compares without regard to order, which
   * this list meets although its order is the reverse.
   */
  lemma WithNullableSimpleTypes()
    ensures EntityTypeNames(Parameter(NullableString)) == [Null, "string"]
    ensures EntityTypeNames(Function(NullableString)) == [Null, "string"]
    ensures multiset(EntityTypeNames(Parameter(NullableString))) == multiset(["string", Null])
    ensures EntityTypeNames(Parameter(NullableString)) != ["string", Null]
  {
  }

  /** `withUnionTypes`: `string|int` gives `["string", "int"]`. */
  lemma WithUnionTypes()
    ensures EntityTypeNames(Parameter(StringOrInt)) == ["string", "int"]
    ensures EntityTypeNames(Function(StringOrInt)) == ["string", "int"]
  {
  }

  /** `withNullableUnionTypes`: `string|int|null` gives `["string", "int", "null"]`, with `"null"` last. */
  lemma WithNullableUnionTypes()
    ensures EntityTypeNames(Parameter(StringOrIntOrNull)) == ["string", "int", Null]
    ensures EntityTypeNames(Function(StringOrIntOrNull)) == ["string", "int", Null]
  {
  }
}
