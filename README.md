# Typestring: `getTypeStrings` in Dafny

The repository provides one trait, `GetTypesTrait`, with one operation,
`getTypeStrings`. It takes the reflection object of a parameter, a property,
or a function or method, and returns the names of the declared type as a list
of strings:

- a function or method is judged by its return type, a parameter or property by its own type;
- no declared type gives the empty list;
- a union type gives its members' names in the order `getTypes()` reports them;
- a single named type gives its name, preceded by `"null"` when it allows null.

The reflection objects are modelled by what the operation reads from them.
`NamedType(name, allowsNull)` stands for a `ReflectionNamedType`.
`TypeDesc` is `NoType` (the reflection call returned `null`), `Single(NamedType)` or
`Union(members, allowsNull)` (a `ReflectionUnionType`). `Entity` is
`Parameter`, `Property` or `Function`. The union's own `allowsNull()` and its
members' flags are kept in the data so that the model can show that
the operation never reads them.

Files:

- `get_types_trait.dfy` (module `GetTypesTrait`): the data model, the specification
  functions `DeclaredType`, `Names`, `TypeNames` and `EntityTypeNames`, the method
  `GetTypeStrings`, and the lemmas about the result.
- `get_types_test.dfy` (module `GetTypesTest`): the five fixtures of the test
  suite as descriptors, with the exact lists the operation yields for each.

The single-type branch of the source builds a local array step by step. The
method `GetTypeStrings` does the same with a local sequence and is proved equal
to the pure specification `EntityTypeNames`. The no-type and union branches
are pure in the source and stay pure here.

The test suite expects `['string', 'null']` for `?string`. It compares with
`assertEqualsCanonicalizing`, which ignores order. The code yields
`['null', 'string']`. The model follows the code. `GetTypesTest.WithNullableSimpleTypes`
proves that the two lists have the same multiset but differ as sequences.

A union with no members also yields the empty list (`TypeNames`), because the
union branch maps whatever members it is given. "No declared type" is therefore
not the only way to an empty result. The model follows the code here too.

## Model

| member | source | states |
|---|---|---|
| `GetTypesTrait.DeclaredType` | GetTypesTrait.php:23 | a function or method is judged by its return type, a parameter or property by its own declared type |
| `GetTypesTrait.Names` | GetTypesTrait.php:32-33 | the mapped list has one entry per union member, and entry i is the name of member i |
| `GetTypesTrait.TypeNames` | GetTypesTrait.php:25-45 | the list is empty if and only if there is no type or the union has no members; a named type yields one or two names, the last its own, two exactly when it allows null, and then `"null"` first |
| `GetTypesTrait.GetTypeStrings` | GetTypesTrait.php:19-46 | the step-by-step construction (early return of `[]`, union member names, append `"null"` if nullable, then the name) returns exactly the specified list, judged by the return type for a function and by the own type otherwise |
| `GetTypesTrait.NoTypeYieldsEmpty` | GetTypesTrait.php:25-28 | an entity whose declared or return type is absent yields `[]` |
| `GetTypesTrait.JudgedByDeclaredType` | GetTypesTrait.php:23 | a function's result is that of its return type; a parameter's or property's is that of its own type |
| `GetTypesTrait.UnionKeepsMembers` | GetTypesTrait.php:30-34 | a union yields as many names as it has members, element i being member i's name: order kept, no deduplication, no sorting |
| `GetTypesTrait.UnionNullOnlyAsMember` | GetTypesTrait.php:30-34 | for a union, position i of the result holds `"null"` exactly when member i is named `"null"`, and `"null"` occurs in the result exactly when some member has that name |
| `GetTypesTrait.UnionIgnoresNullability` | GetTypesTrait.php:30-34 | two unions whose members have the same names give the same list, whatever their own or their members' `allowsNull` flags |
| `GetTypesTrait.SingleNotNullable` | GetTypesTrait.php:36-45 | a named type that does not allow null yields exactly `[name]` |
| `GetTypesTrait.SingleNullable` | GetTypesTrait.php:38-43 | a named type that allows null yields exactly `["null", name]`, with `"null"` first |
| `GetTypesTrait.NoInventedNames` | GetTypesTrait.php:25-45 | every name in the result is a declared name, or the `"null"` of a nullable named type |
| `GetTypesTrait.NullPlacementAsymmetry` | GetTypesTrait.php:30-43 | `"null"` is first for a nullable named type but at its member's position in a union; a nullable `T` and a two-member union whose first member is `null` give the same list |
| `GetTypesTest.WithoutTypes` | tests/GetTypesTest.php:64-89 | the untyped parameter and the untyped return value both give `[]` |
| `GetTypesTest.WithSimpleTypes` | tests/GetTypesTest.php:94-129 | `string`, as parameter or return type, gives `["string"]` |
| `GetTypesTest.WithNullableSimpleTypes` | tests/GetTypesTest.php:134-169 | `?string` gives `["null", "string"]`, whose multiset equals the expected `['string', 'null']` while its order differs |
| `GetTypesTest.WithUnionTypes` | tests/GetTypesTest.php:174-209 | `string\|int` gives `["string", "int"]` |
| `GetTypesTest.WithNullableUnionTypes` | tests/GetTypesTest.php:214-249 | `string\|int\|null` gives `["string", "int", "null"]`, with `"null"` last |

## Left out

- The PHP Reflection API (`getType`, `getReturnType`, `allowsNull`, `getName`, `getTypes`, `instanceof`): its results are the fields of the datatypes above, because its internals belong to the PHP runtime.
- How PHP turns declarations into reflection objects: that `?string` and `T|null` become a nullable named type, which members a union reports, and the order in which `getTypes()` lists them (PHP lists built-in types in a fixed order of its own, with `null` last, not as written). That is the language runtime's behaviour, not this repository's; the model takes the member sequence as given.
- Intersection types: the code has no branch for them. A `ReflectionIntersectionType` reaches the named-type branch, and the `getName()` call at GetTypesTrait.php:43 throws `Error`, because that class has no such method. An intersection member of a DNF union such as `(A&B)|null` makes the `getName()` call at GetTypesTrait.php:33 throw the same way. The model has no descriptor for either, so it does not capture these throws (`Union.members` holds only named types).
- The PHPUnit harness, `getMockForTrait` and the anonymous fixture class: test plumbing; only the expected outputs are modelled, in `GetTypesTest`.
- Calling the operation twice on one descriptor gives equal lists: this holds in Dafny because every member is a function of its inputs, so no lemma states it.
