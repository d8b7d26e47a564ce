/**
 * The merge engine (`mergeMocks`, lib/mockServer.js:130-253): combines a base mock and
 * an override mock into one value, evaluated lazily. Objects are merged key by key into
 * deferred `MergeNode`s and lists item by item into a `MockList` whose generator is again
 * a `MergeNode`, so evaluation only ever goes one level deep.
 */
module MergeEngine {
  import opened Wrappers
  import opened MockValues

  const BaseArrayMessage := "baseMocks must not return arrays or nested arrays."
  const ScalarBaseMessage := "better error 2"
  const ListOverrideMessage := "better error 1"
  const ShapeMismatchMessage := "Not the same type"

  /** Evaluates a mock: invoke it when it is callable, take it literally otherwise. */
  function Eval(s: Source, call: Call): Result<Value, Thrown>
    decreases Size(s)
  {
    match s
    case Const(v) => Ok(v)
    case Gen(f) => Ok(f(call))
    case IndexInto(items) =>
      Ok(if call.index.Some? && call.index.value < |items| then items[call.index.value] else Undefined)
    case MergeNode(b, o) => MergeMocks(b, o, call)
  }

  /** `mergeMocks(base, over)(...args)`: the ordered rules of lib/mockServer.js:131-251. */
  function MergeMocks(base: Source, over: Source, call: Call): Result<Value, Thrown>
    decreases Size(base) + Size(over) + 1
  {
    var ov :- Eval(over, call);
    if IsLeafValue(ov) then Ok(ov)
    else
      var bv :- Eval(base, call);
      if bv.Array? then Err(Failure(BaseArrayMessage))
      else if bv.Null? then Ok(Null)
      else if ov.Undefined? && (IsScalar(bv) || bv.ErrorMarker?) then Ok(bv)
      else if IsScalar(bv) then Err(Failure(ScalarBaseMessage))
      else if bv.Undefined? then Ok(ov)
      else if bv.MockList? then MergeLists(bv, ov)
      else if ov.MockList? || ov.Array? then Err(Failure(ShapeMismatchMessage))
      else if bv.ErrorMarker? && ov.Undefined? then Ok(bv)
      else
        var baseFields := if bv.Object? then bv.fields else map[];
        var overFields := if ov.Object? then ov.fields else map[];
        Ok(Object(MergedFields(baseFields, overFields)))
  }

  /**
   * The list rule (lib/mockServer.js:183-216): the override must be undefined, a MockList or
   * an array; an array becomes a MockList indexing into it, undefined a MockList of the base's
   * length with no generator, and the result takes the override's length.
   */
  function MergeLists(baseList: Value, over: Value): Result<Value, Thrown>
    requires baseList.MockList?
  {
    if !(over.Undefined? || over.MockList? || over.Array?) then Err(Failure(ListOverrideMessage))
    else
      var overList :=
        if over.Array? then MockList(|over.items|, IndexInto(over.items))
        else if over.Undefined? then MockList(baseList.length, Const(Undefined))
        else over;
      Ok(MockList(overList.length, MergeNode(baseList.gen, overList.gen)))
  }

  /** The object rule's result (lib/mockServer.js:238-250): one deferred merge per key of either side. */
  function MergedFields(baseFields: map<string, Source>, overFields: map<string, Source>): map<string, Source> {
    map k | k in overFields.Keys + baseFields.Keys :: MergeNode(Field(baseFields, k), Field(overFields, k))
  }

  /**
   * The loop that fills `mergedMockObject` key by key. The keys of the override come first in the
   * source, but every key receives the same deferred merge whichever side it came from.
   */
  method BuildMergedObject(baseFields: map<string, Source>, overFields: map<string, Source>)
    returns (merged: map<string, Source>)
    ensures merged.Keys == overFields.Keys + baseFields.Keys
    ensures forall k :: k in merged ==> merged[k] == MergeNode(Field(baseFields, k), Field(overFields, k))
    ensures merged == MergedFields(baseFields, overFields)
  {
    merged := map[];
    var pending := overFields.Keys + baseFields.Keys;
    while pending != {}
      invariant pending <= overFields.Keys + baseFields.Keys
      invariant merged.Keys == (overFields.Keys + baseFields.Keys) - pending
      invariant forall k :: k in merged ==> merged[k] == MergeNode(Field(baseFields, k), Field(overFields, k))
      decreases pending
    {
      var key :| key in pending;
      merged := merged[key := MergeNode(Field(baseFields, key), Field(overFields, key))];
      pending := pending - {key};
    }
  }

  /** One selection below a value: a field name and the arguments that field is read with. */
  datatype Step = Step(key: string, call: Call)

  /**
   * Reads a chain of nested fields out of a mock: evaluate it, then descend into the named
   * field with that field's own arguments. A non-object yields `undefined` for every field.
   */
  function Walk(s: Source, call: Call, steps: seq<Step>): Result<Value, Thrown>
    decreases |steps|
  {
    var v :- Eval(s, call);
    if steps == [] then Ok(v) else Walk(Child(v, steps[0].key), steps[0].call, steps[1..])
  }
}
