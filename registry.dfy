/**
 * The base-mock registry (`baseMocks`) and its validation before any query runs
 * (`validateBaseMocks`, lib/mockServer.js:275-320).
 */
module MockRegistry {
  import opened Wrappers
  import opened MockValues
  import opened Schema

  /** `baseMocks[typeName]`: an object of field mocks, or anything else (a function, say). */
  datatype TypeMocks = FieldMocks(fields: map<string, Source>) | NotAnObject

  type Registry = map<string, TypeMocks>

  /** `baseMocks[typeName][fieldName]`, read as `undefined` when either level is missing. */
  function RegisteredMock(registry: Registry, typeName: string, fieldName: string): Source {
    if typeName in registry && registry[typeName].FieldMocks? then Field(registry[typeName].fields, fieldName)
    else Const(Undefined)
  }

  function UnknownTypeMessage(typeName: string): string {
    "baseMocks['" + typeName + "'] is not defined in schema."
  }

  const WrongKindMessage := "baseMock can only define field mocks on Type or Interface."
  const ShapeMessage := "baseMocks should be an object of object of functions."

  function UnknownFieldMessage(typeName: string, fieldName: string): string {
    "baseMocks['" + typeName + "']['" + fieldName + "'] is not defined in schema."
  }

  const NonLeafInterfaceMessage := "It is not allowed to define mocks for non-leaf fields on interfaces."

  /** The first type-level check a registry key fails, in the order lib/mockServer.js:278-293 makes them. */
  function TypeProblem(schema: SchemaMeta, typeName: string, mocks: TypeMocks): Option<string> {
    if typeName !in schema.types then Some(UnknownTypeMessage(typeName))
    else if schema.types[typeName].kind !in {ObjectKind, InterfaceKind} then Some(WrongKindMessage)
    else if mocks.NotAnObject? then Some(ShapeMessage)
    else None
  }

  /** The first field-level check a field mock fails (lib/mockServer.js:299-318). */
  function FieldProblem(schema: SchemaMeta, typeName: string, fieldName: string, mock: Source): Option<string>
    requires typeName in schema.types
  {
    var def := schema.types[typeName];
    if fieldName !in def.fields then Some(UnknownFieldMessage(typeName, fieldName))
    else if !IsCallable(mock) then Some(ShapeMessage)
    else if def.kind == InterfaceKind && !IsLeafType(schema, NullableType(def.fields[fieldName])) then Some(NonLeafInterfaceMessage)
    else None
  }

  /** Every check passes for one registry key and all its field mocks. */
  ghost predicate TypeMocksValid(schema: SchemaMeta, typeName: string, mocks: TypeMocks) {
    && TypeProblem(schema, typeName, mocks).None?
    && forall f :: f in mocks.fields ==> FieldProblem(schema, typeName, f, mocks.fields[f]).None?
  }

  ghost predicate RegistryValid(schema: SchemaMeta, registry: Registry) {
    forall t :: t in registry ==> TypeMocksValid(schema, t, registry[t])
  }

  /** `message` is what validating key `typeName` can throw: its type-level problem, else one field's problem. */
  ghost predicate Reportable(schema: SchemaMeta, typeName: string, mocks: TypeMocks, message: string) {
    match TypeProblem(schema, typeName, mocks)
    case Some(m) => m == message
    case None => exists f :: f in mocks.fields && FieldProblem(schema, typeName, f, mocks.fields[f]) == Some(message)
  }

  /**
   * `validateBaseMocks`: passes exactly when every key and every field mock passes its checks,
   * and otherwise throws one of the messages some key would report. Keys are visited in no
   * particular order, so which of several problems is reported is left open.
   */
  method ValidateBaseMocks(registry: Registry, schema: SchemaMeta) returns (r: Outcome<Thrown>)
    ensures r.Pass? <==> RegistryValid(schema, registry)
    ensures r.Fail? ==> r.error.name == "Error"
    ensures r.Fail? ==> exists t :: t in registry && Reportable(schema, t, registry[t], r.error.message)
  {
    var pending := registry.Keys;
    while pending != {}
      invariant pending <= registry.Keys
      invariant forall t :: t in registry && t !in pending ==> TypeMocksValid(schema, t, registry[t])
      decreases pending
    {
      var typeName :| typeName in pending;
      var mocks := registry[typeName];
      var problem := TypeProblem(schema, typeName, mocks);
      if problem.Some? {
        return Fail(Failure(problem.value));
      }
      var fieldsPending := mocks.fields.Keys;
      while fieldsPending != {}
        invariant fieldsPending <= mocks.fields.Keys
        invariant forall f :: f in mocks.fields && f !in fieldsPending ==>
          FieldProblem(schema, typeName, f, mocks.fields[f]).None?
        decreases fieldsPending
      {
        var fieldName :| fieldName in fieldsPending;
        var fieldProblem := FieldProblem(schema, typeName, fieldName, mocks.fields[fieldName]);
        if fieldProblem.Some? {
          return Fail(Failure(fieldProblem.value));
        }
        fieldsPending := fieldsPending - {fieldName};
      }
      pending := pending - {typeName};
    }
    return Pass;
  }

  /**
   * On an interface, a mock for a `String!` field passes, while mocks for `[String]` and for an
   * object-typed field are refused as non-leaf.
   */
  lemma InterfaceFieldExamples(mock: Source)
    requires IsCallable(mock)
    ensures var schema := SchemaMeta(map[
        "String" := TypeDef(ScalarKind, map[], []),
        "Object" := TypeDef(ObjectKind, map[], []),
        "ObjectInterface" := TypeDef(InterfaceKind, map[
          "nonNullScalar" := NonNull(Named("String")),
          "listOfScalars" := ListOf(Named("String")),
          "object" := Named("Object")], [])]);
      && FieldProblem(schema, "ObjectInterface", "nonNullScalar", mock).None?
      && FieldProblem(schema, "ObjectInterface", "listOfScalars", mock) == Some(NonLeafInterfaceMessage)
      && FieldProblem(schema, "ObjectInterface", "object", mock) == Some(NonLeafInterfaceMessage)
      && FieldProblem(schema, "ObjectInterface", "doesNotExist", mock)
         == Some(UnknownFieldMessage("ObjectInterface", "doesNotExist"))
  {
  }

  /** In a registry that passed validation every field mock is a function, hence truthy. */
  lemma ValidMocksAreFunctions(schema: SchemaMeta, registry: Registry, typeName: string, fieldName: string)
    requires RegistryValid(schema, registry)
    requires typeName in registry && registry[typeName].FieldMocks? && fieldName in registry[typeName].fields
    ensures IsCallable(RegisteredMock(registry, typeName, fieldName))
    ensures SourceTruthy(RegisteredMock(registry, typeName, fieldName))
  {
    assert TypeMocksValid(schema, typeName, registry[typeName]);
  }

  /**
   * In a registry that passed validation, a mock registered on an interface belongs to a field
   * the interface declares and whose nullable type is a leaf.
   */
  lemma ValidInterfaceMocksAreLeaves(schema: SchemaMeta, registry: Registry, typeName: string, fieldName: string)
    requires RegistryValid(schema, registry)
    requires typeName in registry && registry[typeName].FieldMocks? && fieldName in registry[typeName].fields
    requires typeName in schema.types && schema.types[typeName].kind == InterfaceKind
    ensures fieldName in schema.types[typeName].fields
    ensures IsLeafType(schema, NullableType(schema.types[typeName].fields[fieldName]))
  {
    assert TypeMocksValid(schema, typeName, registry[typeName]);
    assert FieldProblem(schema, typeName, fieldName, registry[typeName].fields[fieldName]).None?;
  }
}
