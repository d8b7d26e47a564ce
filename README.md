# Mock resolution for a schema-typed query server, in Dafny

This project models the mock-resolution core of `lib/mockServer.js`. A mock server takes
schema metadata and a registry of base mocks (`baseMocks[type][field]`). It validates the
registry once. It then gives every object-type field a resolver. That resolver picks the field's
base mock, deep-merges it with the override the parent value holds for the field, and expands a
lazily described list (`MockList`) into its items. The `mockRelayConnection` helper turns
pagination arguments into an `edges`/`pageInfo` value, and reports bad arguments in-band. Errors
thrown by the resolution logic are wrapped as `MockError` and rethrown after the query runs.
`Error` values returned by mocks stay ordinary field errors.

Modules, one per component:

- `Wrappers` (wrappers.dfy): `Option`, `Result` and `Outcome`.
- `MockValues` (mock_values.dfy): the value universe. `Value` is undefined, null, string,
  boolean, number, an `Error`, a raw array, a `MockList` or an object. `Source` is what can stand
  where a mock stands: a literal, a user mock function `(args, index) => value`, the deferred
  `mergeMocks(base, over)` closure (`MergeNode`), or the closure that indexes an array override
  (`IndexInto`). A thrown JavaScript error is `Thrown(name, message)`.
- `MergeEngine` (merge.dfy): `Eval` and `MergeMocks`, the ordered rules of `mergeMocks`. Object
  fields and list items stay unevaluated `MergeNode`s, so the model is lazy, as the source is.
  `Walk` reads a chain of nested fields, each with its own arguments.
- `MergeProperties` (merge_properties.dfy): which side wins, shapes, lengths and key sets, and
  two deep-merge theorems proved by induction on the field path.
- `MockLists` (mock_list.dfy): `MockList`, `mockList`, and the resolver loop that expands a list.
- `Schema` (schema.dfy): schema metadata, plus `getNamedType`, `getNullableType` and `isLeafType`.
- `MockRegistry` (registry.dfy): the registry and `validateBaseMocks`.
- `Resolver` (resolver.dfy): `getFieldMock` and the field resolver of `getFieldResolver`.
- `ErrorBridge` (error_bridge.dfy): `markUnexpectedErrors` and `throwUnexpectedErrors`.
- `RelayConnection` (relay.dfy): `mockRelayConnection`, `getRelayConnectionError` and
  `isEmptyString`.

The imperative parts of the source are methods with loops, each proved against a
specification:

- `GetFieldMock`: the `forEach` that collects declaring interfaces.
- `ValidateBaseMocks`: the nested `forEach` loops with early `throw`.
- `ExpandMockList`: the resolver's `push` loop.
- `BuildMergedObject`: the key-by-key fill of the merged object.
- `ThrowUnexpectedErrors`: the scan of the error list.

`mergeMocks` is itself recursive through the closures it returns, so the merge engine has to be
usable inside functions and lemmas. For that reason the engine is a function,
`MergeEngine.MergeMocks`. It builds its object result with `MergedFields`, and
`BuildMergedObject` is proved to compute exactly that map.

## Model

| member | source | states |
|---|---|---|
| `MergeProperties.OverrideLeafWins` | lib/mockServer.js:132-145 | An override that evaluates to null, a string, a boolean, a number or an `Error` is the result, for every base, including one that would throw (the base is never evaluated). |
| `MergeProperties.BaseArrayRejected` | lib/mockServer.js:147-154 | A base that evaluates to a raw array fails with "baseMocks must not return arrays or nested arrays." unless the override is a leaf. |
| `MergeProperties.NullBaseYieldsNull` | lib/mockServer.js:156-158 | A null base yields null whenever the override is not a leaf. |
| `MergeProperties.UndefinedOverrideKeepsLeafBase` | lib/mockServer.js:160-168 | An undefined override over a scalar or `Error` base returns the base unchanged. |
| `MergeProperties.ScalarBaseRejectsComposite` | lib/mockServer.js:170-177 | A defined object, array or MockList override over a scalar base fails ("better error 2"). |
| `MergeProperties.UndefinedBaseIsIdentity` | lib/mockServer.js:179-181 | With an undefined base the result is exactly the evaluated override: undefined is a left identity of the merge. |
| `MergeProperties.ListMerge` | lib/mockServer.js:183-216 | Over a MockList base, the result is a MockList. Its length is the array's length for an array override, the override's length for a MockList, and the base's length for undefined. Item i is the merge of the two item generators at i. |
| `MergeProperties.ListMergeRejectsOtherOverrides` | lib/mockServer.js:188-194 | Over a MockList base, an object override fails ("better error 1"). |
| `MergeProperties.ArrayOverrideItem` | lib/mockServer.js:196-202 | The generator made from an array override yields the array's i-th entry, and undefined past its end. |
| `MergeProperties.ListOverrideNeedsListBase` | lib/mockServer.js:218-224 | A MockList or array override over an object or `Error` base fails with "Not the same type". |
| `MergeProperties.ObjectMerge` | lib/mockServer.js:234-251 | The merged object's keys are exactly the union of both sides' keys (an undefined override counts as `{}`). Each key evaluates, whenever it is read, to the merge of the two sides' mocks for that key. |
| `MergeProperties.ErrorBaseRescuedByObject` | lib/mockServer.js:226-232 | An `Error` base is returned when the override is undefined. Under an object override it is replaced by `{}`: the result has exactly the override's keys, each merged over undefined. |
| `MergeProperties.OverrideWinsAtDepth` | lib/mockServer.js:130-253 | At any depth, the leaf the override reaches through objects is the leaf read from the merge, provided the base is an object, undefined or an `Error` along the way. |
| `MergeProperties.BaseShowsThrough` | lib/mockServer.js:130-253 | At any depth, merging under an undefined override reads exactly like the base wherever the base ends in something other than an object or list and holds no raw array on the way. |
| `MergeProperties.ListOverUndefinedKeepsItems` | lib/mockServer.js:204-215 | A MockList base under an undefined override keeps its length, and every item reads like the base generator's item. |
| `MergeProperties.ShallowMergeExample` | lib/mockServer.js:238-251 | `merge({a: 1, b: 2}, {b: 3, c: 4})` has keys a, b, c reading 1, 3, 4. |
| `MergeEngine.Eval` | lib/mockServer.js:132-135 | Definition: a function mock is called with the arguments, and any other mock is taken literally. `OverrideLeafWins` and `BaseArrayRejected` state what this gives each side. |
| `MergeEngine.MergeMocks` | lib/mockServer.js:130-253 | Definition: the ordered rules. Each rule is stated by one of the `MergeProperties` lemmas above, and the deep-merge behaviour by `OverrideWinsAtDepth` and `BaseShowsThrough`. |
| `MergeEngine.MergeLists` | lib/mockServer.js:183-216 | Definition of the list rule. It is stated by `ListMerge`, `ListMergeRejectsOtherOverrides` and `ArrayOverrideItem`. |
| `MergeEngine.MergedFields` | lib/mockServer.js:238-250 | Definition of the merged object. It is stated by `ObjectMerge` and `ShallowMergeExample`, and `BuildMergedObject` computes it. |
| `MergeEngine.BuildMergedObject` | lib/mockServer.js:238-250 | The key-by-key loop produces one deferred merge per key of either side, and nothing else. |
| `MockLists.NewMockList` | lib/mockServer.js:255-267 | Definition: a list of the given length whose generator is the item function, or undefined without one. Stated through `MockListOverUndefined` and `ResolveField`'s list clause. |
| `MockLists.MockListMock` | lib/mockServer.js:269-273 | Definition: a mock function returning a new `MockList` on every call. `MockListOverUndefined`, `ArrayOverMockList` and `MockListOverMockList` state how it merges. |
| `MockLists.CallItem` | lib/mockServer.js:75 | Definition: the generator is called with the field arguments and the index, and a generator that is not a function throws a `TypeError`. `ExpandMockList` states the loop over it. |
| `MockLists.ExpandMockList` | lib/mockServer.js:71-79 | The expanded array has one item per index below the length (none for a non-positive length), and item i is the generator's value at i. Expansion fails exactly when some item throws, and then with the first such error. |
| `MockLists.MockListOverUndefined` | lib/mockServer.js:255-273 | A `mockList(n, f)` base under an undefined override gives n items, and item i reads as `f(args, i)`. |
| `MockLists.ArrayOverMockList` | __tests__/mockServer-tests.js:470-550 | An array override over `mockList(n, f)` gives the array's length, and item i is `f(args, i)` merged with the array's i-th entry. |
| `MockLists.MockListOverMockList` | __tests__/mockServer-tests.js:327-375 | A `mockList(m, g)` override over `mockList(n, f)` gives m items, and item i is the merge of `f` and `g` at i. |
| `MockRegistry.TypeProblem` | lib/mockServer.js:278-293 | Definition of the per-type checks, in source order. `ValidateBaseMocks` states the loop over them. |
| `MockRegistry.FieldProblem` | lib/mockServer.js:298-318 | Definition of the per-field checks, in source order. `ValidateBaseMocks`, `InterfaceFieldExamples`, `ValidMocksAreFunctions` and `ValidInterfaceMocksAreLeaves` state them. |
| `MockRegistry.ValidateBaseMocks` | lib/mockServer.js:275-320 | Validation passes exactly when every key names an Object or Interface type of the schema and maps to an object, every field key exists on its type and maps to a function, and every interface field mock is for a field whose nullable type is a leaf. Otherwise it throws one of the messages a failing key reports. |
| `MockRegistry.InterfaceFieldExamples` | __tests__/mockServer-tests.js:817-891 | On an interface, a `String!` field may be mocked. `[String]` and object-typed fields are refused as non-leaf, and an unknown field is refused with its own message. |
| `MockRegistry.ValidMocksAreFunctions` | lib/mockServer.js:305-307 | In a validated registry every field mock is a function, and so is truthy. |
| `MockRegistry.ValidInterfaceMocksAreLeaves` | lib/mockServer.js:309-318 | In a validated registry an interface's field mock belongs to a declared field whose nullable type is a leaf. |
| `Resolver.DeclaringInterfaces` | lib/mockServer.js:100-105 | Exactly the implemented interfaces that exist and declare the field, never more entries than interfaces. |
| `Resolver.DeclaringInterfacesCount` | lib/mockServer.js:100-105 | Each declaring interface is collected exactly as many times as it is listed, and no other name is collected. So a list of interfaces without repeats gives a list of declaring interfaces without repeats. |
| `Resolver.SelectBaseMock` | lib/mockServer.js:85-128 | Definition of the precedence: type mock, then the single declaring interface's mock, then failure or undefined. It is stated branch by branch by `TypeMockFirst`, `AmbiguousInterfacesFail`, `InterfaceFallback`, `LeafFieldHasBaseMock` and `CompositeFieldMayLackMock`. |
| `Resolver.GetFieldMock` | lib/mockServer.js:85-128 | The loop-based lookup returns the precedence-ordered choice `SelectBaseMock`. |
| `Resolver.TypeMockFirst` | lib/mockServer.js:90-98 | A truthy type-level mock is the base mock. |
| `Resolver.AmbiguousInterfacesFail` | lib/mockServer.js:107-111 | Without a type-level mock, two distinct implemented interfaces declaring the field make resolution fail with "More than 1 interface for this field. Define base mock on the type.", whatever mocks the interfaces have. |
| `Resolver.InterfaceFallback` | lib/mockServer.js:113-120 | Without a type-level mock, suppose the type lists an interface once, that interface declares the field, and no other listed interface does. Then that interface's truthy mock is the base mock. |
| `Resolver.LeafFieldHasBaseMock` | lib/mockServer.js:122-127 | A leaf field never resolves to a falsy base mock. With no type mock and no usable single-interface mock, it fails with "There is no base mock for '<Type>.<field>'. All queried fields must have a base mock.". |
| `Resolver.CompositeFieldMayLackMock` | lib/mockServer.js:107-128 | A composite field fails only on interface ambiguity, and otherwise without a mock gets undefined. |
| `Resolver.ValidatedTypeMockWins` | lib/mockServer.js:92-98 | After validation, a field mocked on its own type always takes that mock. |
| `Resolver.MergedFieldValue` | lib/mockServer.js:64-65 | Definition: the chosen base mock merged with the parent's mock for the field, called with the field's arguments. `ResolvedLeafOverride` and `UnmockedFieldFollowsOverride` state it. |
| `Resolver.ResolvedLeafOverride` | lib/mockServer.js:62-65 | Once the field has some base mock, an override that reads as a leaf is the merged value. That is what `Walk` reads one step below the parent. |
| `Resolver.UnmockedFieldFollowsOverride` | lib/mockServer.js:62-65 | A field whose base mock is undefined resolves to exactly what the parent's override reads as, which is what `Walk` reads one step below the parent. |
| `Resolver.ResolveField` | lib/mockServer.js:62-83 | Any throw becomes a MockError with message "Name: message". Undefined becomes `{}`. A MockList becomes the array of its items. If an item throws, the field faults with the error of the first item that throws, and every earlier item succeeded. Anything else passes unchanged, so the query engine never sees undefined or a MockList. |
| `ErrorBridge.MarkUnexpectedErrors` | lib/mockServer.js:323-333 | A thrown error becomes a MockError carrying `String(error)`. A returned value passes through. |
| `ErrorBridge.ReportOf` | lib/mockServer.js:49-58 | Definition: a MockError fault is listed as a MockError, a returned `Error` value as a declared error, and anything else is not listed. `Reports` and `QueryAbortsOnlyOnFaults` state its consequences. |
| `ErrorBridge.Reports` | lib/mockServer.js:49-58 | The error list holds a MockError entry exactly when some field faulted. |
| `ErrorBridge.FirstMockError` | lib/mockServer.js:335-345 | Nothing is rethrown exactly when no entry is a MockError. Otherwise the message of the first MockError entry is rethrown: no earlier entry is a MockError. |
| `ErrorBridge.ThrowUnexpectedErrors` | lib/mockServer.js:335-345 | The scan rethrows the first MockError of the list, and nothing when there is none. |
| `ErrorBridge.QueryAbortsOnlyOnFaults` | lib/mockServer.js:49-59 | A query call throws exactly when some field resolver faulted. Declared `Error` values never abort it. |
| `RelayConnection.IsEmptyString` | lib/mockServer.js:399-401 | Definition: a missing, empty or zero argument is empty. `CursorPairRejected` states its use. |
| `RelayConnection.ArgsProblem` | lib/mockServer.js:355-365 | Definition: the first failing argument check, in source order. `ArgsAccepted`, `CursorPairRejected` and `FirstAndLastRejected` state it. |
| `RelayConnection.CursorPairRejected` | lib/mockServer.js:355-357 | The cursor error is reported exactly when both `before` and `after` are present and neither is empty. |
| `RelayConnection.ArgsAccepted` | lib/mockServer.js:355-365 | Arguments pass exactly when `before` or `after` is empty, exactly one of `first` and `last` is set, and that one is non-negative. |
| `RelayConnection.RequestedPageSize` | lib/mockServer.js:369 | For accepted arguments `first ?? last` is non-negative. |
| `RelayConnection.PageSizeAsWritten` | lib/mockServer.js:370-371 | Definition: clamp only when `maxSize` is truthy. `ZeroMaxSizeDoesNotClamp` and `PageSizeAgreesExceptZero` state it. |
| `RelayConnection.HasMorePages` | lib/mockServer.js:372 | Definition: below `maxSize` when one is given, and always true without one. `AcceptedArgsShape`, `UnboundedPages` and `BoundedPage` state its effect on pageInfo. |
| `RelayConnection.PageSize` | lib/mockServer.js:370-371 | Corrected rule. The edge count is the requested size without a bound, and `min(requested, maxSize)` with one. |
| `RelayConnection.EdgeCount` | lib/mockServer.js:370-371 | The edge count a connection uses: the written rule, or the corrected one. The two agree unless `maxSize` is 0, and with 0 the written rule returns the requested size. |
| `RelayConnection.ZeroMaxSizeDoesNotClamp` | lib/mockServer.js:370-372 | As written, `maxSize: 0` with `first: 3` yields 3 edges while `hasMorePages` is false. |
| `RelayConnection.PageSizeAgreesExceptZero` | lib/mockServer.js:370-371 | The written and corrected page sizes agree for every `maxSize` except 0. |
| `RelayConnection.NatToString` | lib/mockServer.js:378 | The decimal text of an index is non-empty, and has at least two digits from 10 on. |
| `RelayConnection.NatToStringInjective` | lib/mockServer.js:378 | Different indices print differently. |
| `RelayConnection.CursorsAreDistinct` | lib/mockServer.js:378 | Edges at different indices carry different cursors. |
| `RelayConnection.EdgeAt` | lib/mockServer.js:374-379 | Definition of one edge: the node mock's value at the index (or undefined) and the cursor `cursor_<index>`. `AcceptedArgsShape` and `CursorsAreDistinct` state it. |
| `RelayConnection.ConnectionError` | lib/mockServer.js:388-397 | Definition of the in-band error value. `RejectedArgsErrorEverywhere` states what a query reads from it. |
| `RelayConnection.Connection` | lib/mockServer.js:349-386 | Definition of the returned value. With `corrected` false it follows the source. `RejectedArgsErrorEverywhere`, `AcceptedArgsShape` and the page examples state it. |
| `RelayConnection.RelayConnectionMock` | lib/mockServer.js:349-350 | Definition: a mock function of the connection field's arguments. It is the source the `Walk` lemmas read. |
| `RelayConnection.CorrectionOnlyAffectsZeroBound` | lib/mockServer.js:370-371 | The written and corrected connections are identical whenever `maxSize` is not 0. |
| `RelayConnection.RejectedArgsErrorEverywhere` | lib/mockServer.js:355-397 | Rejected arguments give one edge whose node and cursor, and both pageInfo flags, all read as the same `Error`. |
| `RelayConnection.AcceptedArgsShape` | lib/mockServer.js:367-384 | For accepted arguments, `edges` has the edge count of the chosen rule. Edge i holds the node mock's value at i (or undefined) and the cursor `cursor_<i>`. `hasNextPage` is `hasMorePages` only for forward pagination, and `hasPreviousPage` only for backward pagination. |
| `RelayConnection.AcceptedPageRead` | lib/mockServer.js:367-384 | For accepted arguments, a query of the connection mock reads the edge count and the two pageInfo flags that the pagination direction and `hasMorePages` determine. |
| `RelayConnection.UnboundedPages` | __tests__/mockServer-tests.js:1066-1110 | Read from the connection mock as written, with no bound: `first: 3` gives 3 edges, a next page and no previous page. `last: 1` gives 1 edge, a previous page and no next page. |
| `RelayConnection.BoundedPage` | __tests__/mockServer-tests.js:1112-1158 | Read from the connection mock as written, with `maxSize: 2`: `first: 3` or `last: 3` gives 2 edges and neither flag. |
| `RelayConnection.ZeroMaxSizeConnection` | lib/mockServer.js:370-384 | Read from the connection mock with `maxSize: 0` and `first: 3`: as written it gives 3 edges and no next page, and corrected it gives 0 edges. |
| `RelayConnection.FirstAndLastRejected` | __tests__/mockServer-tests.js:982-1009 | `first: 3, last: 1` is rejected with "Either first xor last should be set". |

## Left out

- Building the schema from its definition, and executing queries through `graphql-tools` and
  `graphql` (lib/mockServer.js:41-59), are calls into foreign libraries. The schema is plain
  metadata passed in. The query engine's error list is a parameter of `ThrowUnexpectedErrors`.
- `forEachField` (lib/mockServer.js:403-421) attaches resolvers by mutating schema objects. Its
  effect appears only as `ResolveField`'s precondition: the field is declared on a type of the schema.
- The unused example `mocks` constant (lib/mockServer.js:28-38) has no behaviour.
- JavaScript object key order is not modelled: objects are maps. `ValidateBaseMocks` therefore
  visits keys in an unspecified order. When several keys or fields are invalid, its contract says
  which messages can be thrown, not which one comes first.
- Numbers are integers. Floating point, `NaN` and non-integer list lengths are not modelled.
- Field arguments are strings or integers. A null argument is an absent key. `first` and `last`
  are read only as integers, because a connection's schema types them `Int`.
- Mock functions are total and do not throw. A mock that returns a function, and JavaScript's
  own `TypeError`s other than calling a missing list generator, are not modelled.
- The query engine's walk over selections is not modelled. `Walk` reads nested fields of one
  merged value and ignores the registry's base mocks below the first field. Field by field, the
  resolvers agree with it under two conditions. First, every leaf field on the path has some
  base mock, which an override leaf then beats (`ResolvedLeafOverride`). Second, every composite
  field on the path resolves its base mock to undefined (`UnmockedFieldFollowsOverride`). A leaf
  field with no base mock fails instead of reading the override (`LeafFieldHasBaseMock`).
  `OverrideWinsAtDepth`, `RejectedArgsErrorEverywhere`, `AcceptedArgsShape` and the relay page
  examples describe the server only under those two conditions.
- `ErrorBridge.ReportOf` and `ErrorBridge.Reports` describe how the query engine lists a field's
  own outcome. Errors inside list items, which the engine reports as it completes each item, are
  left out.

## Findings

| source | as written | input that shows it | evidently intended | confidence | as-written member | corrected member |
|---|---|---|---|---|---|---|
| lib/mockServer.js:370-372 | `maxSize && requestedPageSize > maxSize` treats `maxSize: 0` as unset when clamping. `maxSize != null` treats it as set when computing `hasMorePages`. | `mockRelayConnection({maxSize: 0})` with `first: 3`: 3 edges, and `hasNextPage` false. | Clamp to every configured `maxSize`, as `hasMorePages` assumes: 0 edges. | medium, not executed | `RelayConnection.ZeroMaxSizeConnection` | `RelayConnection.PageSize` |

`RelayConnection.Connection` takes the page-size rule as a flag. With `false` it follows the
source, and the lemmas that restate the tests use that. With `true` it uses `PageSize`, which
clamps to every configured `maxSize`. `CorrectionOnlyAffectsZeroBound` proves the two identical
for every `maxSize` other than 0.
