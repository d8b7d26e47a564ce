/**
 * The schema metadata the mock server reads: named types with their kind, fields and
 * implemented interfaces. Building the schema from its definition is the query engine's job.
 */
module Schema {

  datatype TypeKind = ObjectKind | InterfaceKind | ScalarKind | EnumKind | UnionKind | InputObjectKind

  /** A field's declared type: a named type wrapped in lists and non-null markers. */
  datatype TypeRef = Named(name: string) | ListOf(item: TypeRef) | NonNull(inner: TypeRef)

  datatype TypeDef = TypeDef(kind: TypeKind, fields: map<string, TypeRef>, interfaces: seq<string>)

  datatype SchemaMeta = SchemaMeta(types: map<string, TypeDef>)

  /** `getNamedType`: strip every list and non-null wrapper. */
  function NamedType(t: TypeRef): string {
    match t
    case Named(n) => n
    case ListOf(item) => NamedType(item)
    case NonNull(inner) => NamedType(inner)
  }

  /** `getNullableType`: strip one outer non-null wrapper. */
  function NullableType(t: TypeRef): TypeRef {
    if t.NonNull? then t.inner else t
  }

  /** `isLeafType`: a named scalar or enum type (a list or non-null wrapper is not a leaf). */
  predicate IsLeafType(schema: SchemaMeta, t: TypeRef) {
    t.Named? && t.name in schema.types && schema.types[t.name].kind in {ScalarKind, EnumKind}
  }

  /** The named type under a field type is a leaf: the field has no sub-selection. */
  predicate IsLeafField(schema: SchemaMeta, t: TypeRef) {
    IsLeafType(schema, Named(NamedType(t)))
  }
}
