/**
 * Per-field resolution: choosing the base mock (`getFieldMock`, lib/mockServer.js:85-128) and
 * the field resolver that merges it with the parent's override and expands lists
 * (`getFieldResolver`, lib/mockServer.js:62-83), wrapped by `markUnexpectedErrors`.
 */
module Resolver {
  import opened Wrappers
  import opened MockValues
  import opened Schema
  import opened MockRegistry
  import opened MergeEngine
  import opened MergeProperties
  import opened MockLists
  import opened ErrorBridge

  const AmbiguousInterfaceMessage := "More than 1 interface for this field. Define base mock on the type."

  function MissingBaseMockMessage(typeName: string, fieldName: string): string {
    "There is no base mock for '" + typeName + "." + fieldName + "'. All queried fields must have a base mock."
  }

  /** The interface `name` exists and declares `fieldName`. */
  predicate Declares(schema: SchemaMeta, name: string, fieldName: string) {
    name in schema.types && fieldName in schema.types[name].fields
  }

  /** The implemented interfaces that declare the field, in declaration order. */
  function DeclaringInterfaces(schema: SchemaMeta, interfaces: seq<string>, fieldName: string): (r: seq<string>)
    ensures |r| <= |interfaces|
    ensures forall name :: name in r <==> name in interfaces && Declares(schema, name, fieldName)
  {
    if interfaces == [] then []
    else
      var last := interfaces[|interfaces| - 1];
      var init := interfaces[..|interfaces| - 1];
      assert interfaces == init + [last];
      DeclaringInterfaces(schema, init, fieldName) + (if Declares(schema, last, fieldName) then [last] else [])
  }

  /**
   * Each declaring interface is collected exactly as often as it is listed, so an interface list
   * without repetitions gives a declaring list without repetitions.
   */
  lemma {:induction false} DeclaringInterfacesCount(schema: SchemaMeta, interfaces: seq<string>, fieldName: string)
    ensures var r := DeclaringInterfaces(schema, interfaces, fieldName);
      forall name :: multiset(r)[name] == if Declares(schema, name, fieldName) then multiset(interfaces)[name] else 0
    ensures var r := DeclaringInterfaces(schema, interfaces, fieldName);
      (forall a, b :: 0 <= a < b < |interfaces| ==> interfaces[a] != interfaces[b]) ==>
      (forall a, b :: 0 <= a < b < |r| ==> r[a] != r[b])
    decreases |interfaces|
  {
    if interfaces != [] {
      var last := interfaces[|interfaces| - 1];
      var init := interfaces[..|interfaces| - 1];
      assert interfaces == init + [last];
      DeclaringInterfacesCount(schema, init, fieldName);
      var r := DeclaringInterfaces(schema, interfaces, fieldName);
      var r0 := DeclaringInterfaces(schema, init, fieldName);
      if forall a, b :: 0 <= a < b < |interfaces| ==> interfaces[a] != interfaces[b] {
        assert forall a, b :: 0 <= a < b < |init| ==> init[a] != init[b] by {
          forall a, b | 0 <= a < b < |init| ensures init[a] != init[b] {
            assert init[a] == interfaces[a] && init[b] == interfaces[b];
          }
        }
        if Declares(schema, last, fieldName) {
          assert last !in init by {
            forall k | 0 <= k < |init| ensures init[k] != last {
              assert init[k] == interfaces[k];
            }
          }
          assert last !in r0;
          assert r == r0 + [last];
          forall a, b | 0 <= a < b < |r| ensures r[a] != r[b] {
            if b == |r| - 1 {
              assert r[a] == r0[a] && r0[a] in r0;
            } else {
              assert r[a] == r0[a] && r[b] == r0[b];
            }
          }
        }
      }
    }
  }

  /** The base mock for a field, by precedence: type, single declaring interface, else failure or undefined. */
  function SelectBaseMock(schema: SchemaMeta, registry: Registry, typeName: string, fieldName: string): Result<Source, Thrown>
    requires typeName in schema.types && fieldName in schema.types[typeName].fields
  {
    var typeMock := RegisteredMock(registry, typeName, fieldName);
    if SourceTruthy(typeMock) then Ok(typeMock)
    else
      var fieldInterfaces := DeclaringInterfaces(schema, schema.types[typeName].interfaces, fieldName);
      if |fieldInterfaces| > 1 then Err(Failure(AmbiguousInterfaceMessage))
      else if |fieldInterfaces| == 1 && SourceTruthy(RegisteredMock(registry, fieldInterfaces[0], fieldName)) then
        Ok(RegisteredMock(registry, fieldInterfaces[0], fieldName))
      else if IsLeafField(schema, schema.types[typeName].fields[fieldName]) then
        Err(Failure(MissingBaseMockMessage(typeName, fieldName)))
      else Ok(Const(Undefined))
  }

  /** `getFieldMock`, with the `forEach` that collects the declaring interfaces. */
  method GetFieldMock(schema: SchemaMeta, registry: Registry, typeName: string, fieldName: string)
    returns (r: Result<Source, Thrown>)
    requires typeName in schema.types && fieldName in schema.types[typeName].fields
    ensures r == SelectBaseMock(schema, registry, typeName, fieldName)
  {
    var baseMock := RegisteredMock(registry, typeName, fieldName);
    if SourceTruthy(baseMock) {
      return Ok(baseMock);
    }
    var interfaces := schema.types[typeName].interfaces;
    var fieldInterfaces: seq<string> := [];
    var i := 0;
    while i < |interfaces|
      invariant 0 <= i <= |interfaces|
      invariant fieldInterfaces == DeclaringInterfaces(schema, interfaces[..i], fieldName)
    {
      assert interfaces[..i + 1][..i] == interfaces[..i];
      if Declares(schema, interfaces[i], fieldName) {
        fieldInterfaces := fieldInterfaces + [interfaces[i]];
      }
      i := i + 1;
    }
    assert interfaces[..i] == interfaces;
    if |fieldInterfaces| > 1 {
      return Err(Failure(AmbiguousInterfaceMessage));
    }
    if |fieldInterfaces| == 1 && SourceTruthy(RegisteredMock(registry, fieldInterfaces[0], fieldName)) {
      return Ok(RegisteredMock(registry, fieldInterfaces[0], fieldName));
    }
    if IsLeafField(schema, schema.types[typeName].fields[fieldName]) {
      return Err(Failure(MissingBaseMockMessage(typeName, fieldName)));
    }
    return Ok(Const(Undefined));
  }

  /** A type-level mock, when present, is the base mock; interface mocks are then never consulted. */
  lemma TypeMockFirst(schema: SchemaMeta, registry: Registry, typeName: string, fieldName: string)
    requires typeName in schema.types && fieldName in schema.types[typeName].fields
    requires SourceTruthy(RegisteredMock(registry, typeName, fieldName))
    ensures SelectBaseMock(schema, registry, typeName, fieldName) == Ok(RegisteredMock(registry, typeName, fieldName))
  {
  }

  /**
   * Without a type-level mock, a field that two or more implemented interfaces declare fails as
   * ambiguous, even when an interface mock exists.
   */
  lemma {:induction false} AmbiguousInterfacesFail(schema: SchemaMeta, registry: Registry, typeName: string, fieldName: string,
                                                    i1: string, i2: string)
    requires typeName in schema.types && fieldName in schema.types[typeName].fields
    requires !SourceTruthy(RegisteredMock(registry, typeName, fieldName))
    requires i1 != i2 && i1 in schema.types[typeName].interfaces && i2 in schema.types[typeName].interfaces
    requires Declares(schema, i1, fieldName) && Declares(schema, i2, fieldName)
    ensures SelectBaseMock(schema, registry, typeName, fieldName) == Err(Failure(AmbiguousInterfaceMessage))
  {
    var fieldInterfaces := DeclaringInterfaces(schema, schema.types[typeName].interfaces, fieldName);
    TwoMembersMakeTwo(fieldInterfaces, i1, i2);
  }

  /** A sequence holding two different names has at least two entries. */
  lemma TwoMembersMakeTwo(names: seq<string>, a: string, b: string)
    requires a != b && a in names && b in names
    ensures |names| >= 2
  {
    var i :| 0 <= i < |names| && names[i] == a;
    var j :| 0 <= j < |names| && names[j] == b;
    assert i != j;
  }

  /** Without a type-level mock, the mock of the one implemented interface declaring the field is the base mock. */
  lemma InterfaceFallback(schema: SchemaMeta, registry: Registry, typeName: string, fieldName: string, iface: string)
    requires typeName in schema.types && fieldName in schema.types[typeName].fields
    requires !SourceTruthy(RegisteredMock(registry, typeName, fieldName))
    requires var interfaces := schema.types[typeName].interfaces;
      && multiset(interfaces)[iface] == 1 && Declares(schema, iface, fieldName)
      && (forall other :: other in interfaces && other != iface ==> !Declares(schema, other, fieldName))
    requires SourceTruthy(RegisteredMock(registry, iface, fieldName))
    ensures SelectBaseMock(schema, registry, typeName, fieldName) == Ok(RegisteredMock(registry, iface, fieldName))
  {
    var interfaces := schema.types[typeName].interfaces;
    var r := DeclaringInterfaces(schema, interfaces, fieldName);
    DeclaringInterfacesCount(schema, interfaces, fieldName);
    assert multiset(r) == multiset{iface};
    assert |r| == 1;
    assert r[0] in multiset(r);
    assert r == [iface];
  }

  /**
   * A leaf field never resolves its base mock to `undefined`: it gets a truthy mock or fails,
   * and it fails with the missing-mock message when no type or single-interface mock exists.
   */
  lemma LeafFieldHasBaseMock(schema: SchemaMeta, registry: Registry, typeName: string, fieldName: string)
    requires typeName in schema.types && fieldName in schema.types[typeName].fields
    requires IsLeafField(schema, schema.types[typeName].fields[fieldName])
    ensures SelectBaseMock(schema, registry, typeName, fieldName).Ok? ==>
      SourceTruthy(SelectBaseMock(schema, registry, typeName, fieldName).value)
    ensures var fieldInterfaces := DeclaringInterfaces(schema, schema.types[typeName].interfaces, fieldName);
      && !SourceTruthy(RegisteredMock(registry, typeName, fieldName))
      && |fieldInterfaces| <= 1
      && (|fieldInterfaces| == 1 ==> !SourceTruthy(RegisteredMock(registry, fieldInterfaces[0], fieldName)))
      ==> SelectBaseMock(schema, registry, typeName, fieldName) == Err(Failure(MissingBaseMockMessage(typeName, fieldName)))
  {
  }

  /**
   * A composite field only fails on interface ambiguity; with no reachable mock it gets
   * `undefined`, which later merges as `{}`.
   */
  lemma CompositeFieldMayLackMock(schema: SchemaMeta, registry: Registry, typeName: string, fieldName: string)
    requires typeName in schema.types && fieldName in schema.types[typeName].fields
    requires !IsLeafField(schema, schema.types[typeName].fields[fieldName])
    ensures SelectBaseMock(schema, registry, typeName, fieldName).Err? ==>
      SelectBaseMock(schema, registry, typeName, fieldName) == Err(Failure(AmbiguousInterfaceMessage))
    ensures var selected := SelectBaseMock(schema, registry, typeName, fieldName);
      selected.Ok? && !SourceTruthy(selected.value) ==> selected == Ok(Const(Undefined))
  {
  }

  /** After validation, a field mocked on its own type always takes that mock. */
  lemma ValidatedTypeMockWins(schema: SchemaMeta, registry: Registry, typeName: string, fieldName: string)
    requires RegistryValid(schema, registry)
    requires typeName in schema.types && fieldName in schema.types[typeName].fields
    requires typeName in registry && registry[typeName].FieldMocks? && fieldName in registry[typeName].fields
    ensures SelectBaseMock(schema, registry, typeName, fieldName) == Ok(registry[typeName].fields[fieldName])
  {
    ValidMocksAreFunctions(schema, registry, typeName, fieldName);
  }

  /** The merged value of a field: its base mock merged with the parent's mock for it, called with the field's arguments. */
  ghost function MergedFieldValue(schema: SchemaMeta, registry: Registry, typeName: string, fieldName: string,
                                  parent: Value, args: Args): Result<Value, Thrown>
    requires typeName in schema.types && fieldName in schema.types[typeName].fields
  {
    var baseMock :- SelectBaseMock(schema, registry, typeName, fieldName);
    MergeMocks(baseMock, Child(parent, fieldName), Call(args, None))
  }

  /**
   * Once a field has some base mock, an override that reads as a leaf is what the field resolves
   * to, as `Walk` reads it one step down from the parent.
   */
  lemma ResolvedLeafOverride(schema: SchemaMeta, registry: Registry, typeName: string, fieldName: string,
                             parent: Value, args: Args, call: Call)
    requires typeName in schema.types && fieldName in schema.types[typeName].fields
    requires SelectBaseMock(schema, registry, typeName, fieldName).Ok?
    requires var over := Eval(Child(parent, fieldName), Call(args, None)); over.Ok? && IsLeafValue(over.value)
    ensures MergedFieldValue(schema, registry, typeName, fieldName, parent, args)
         == Walk(Const(parent), call, [Step(fieldName, Call(args, None))])
         == Eval(Child(parent, fieldName), Call(args, None))
  {
    assert [Step(fieldName, Call(args, None))][1..] == [];
  }

  /**
   * A field whose base mock is `undefined` (a composite field nobody mocks) resolves to exactly
   * what the parent's override reads as, as `Walk` reads it one step down from the parent.
   */
  lemma UnmockedFieldFollowsOverride(schema: SchemaMeta, registry: Registry, typeName: string, fieldName: string,
                                     parent: Value, args: Args, call: Call)
    requires typeName in schema.types && fieldName in schema.types[typeName].fields
    requires SelectBaseMock(schema, registry, typeName, fieldName) == Ok(Const(Undefined))
    ensures MergedFieldValue(schema, registry, typeName, fieldName, parent, args)
         == Walk(Const(parent), call, [Step(fieldName, Call(args, None))])
         == Eval(Child(parent, fieldName), Call(args, None))
  {
    UndefinedBaseIsIdentity(Const(Undefined), Child(parent, fieldName), Call(args, None));
    assert [Step(fieldName, Call(args, None))][1..] == [];
  }

  /**
   * The wrapped field resolver. Whatever is thrown while choosing or merging mocks, or while
   * expanding a list, becomes a MockError; `undefined` becomes `{}`; a MockList becomes the array
   * of its items; any other value is handed to the query engine unchanged.
   */
  method ResolveField(schema: SchemaMeta, registry: Registry, typeName: string, fieldName: string,
                      parent: Value, args: Args) returns (r: FieldOutcome)
    requires typeName in schema.types && fieldName in schema.types[typeName].fields
    ensures r.Resolved? ==> !r.value.Undefined? && !r.value.MockList?
    ensures MergedFieldValue(schema, registry, typeName, fieldName, parent, args).Err? ==>
      r == Faulted(Describe(MergedFieldValue(schema, registry, typeName, fieldName, parent, args).error))
    ensures MergedFieldValue(schema, registry, typeName, fieldName, parent, args) == Ok(Undefined) ==>
      r == Resolved(Object(map[]))
    ensures var merged := MergedFieldValue(schema, registry, typeName, fieldName, parent, args);
      merged.Ok? && !merged.value.Undefined? && !merged.value.MockList? ==> r == Resolved(merged.value)
    ensures var merged := MergedFieldValue(schema, registry, typeName, fieldName, parent, args);
      merged.Ok? && merged.value.MockList? ==>
        && (r.Resolved? <==> forall i :: 0 <= i < merged.value.length ==> CallItem(merged.value.gen, args, i).Ok?)
        && (r.Resolved? ==> r.value.Array?)
        && (r.Resolved? ==> |r.value.items| == (if merged.value.length < 0 then 0 else merged.value.length))
        && (r.Resolved? ==> forall i :: 0 <= i < |r.value.items| ==>
                              CallItem(merged.value.gen, args, i) == Ok(r.value.items[i]))
        && (r.Faulted? ==> exists i :: 0 <= i < merged.value.length && CallItem(merged.value.gen, args, i).Err? &&
                                       r.message == Describe(CallItem(merged.value.gen, args, i).error) &&
                                       forall j :: 0 <= j < i ==> CallItem(merged.value.gen, args, j).Ok?)
  {
    var baseMock := GetFieldMock(schema, registry, typeName, fieldName);
    if baseMock.Err? {
      return MarkUnexpectedErrors(Err(baseMock.error));
    }
    var merged := MergeMocks(baseMock.value, Child(parent, fieldName), Call(args, None));
    if merged.Err? {
      return MarkUnexpectedErrors(Err(merged.error));
    }
    var mergedValue := merged.value;
    if mergedValue.Undefined? {
      return Resolved(Object(map[]));
    }
    if mergedValue.MockList? {
      var items := ExpandMockList(mergedValue.length, mergedValue.gen, args);
      if items.Err? {
        return MarkUnexpectedErrors(Err(items.error));
      }
      return Resolved(Array(items.value));
    }
    return Resolved(mergedValue);
  }
}
