/**
 * Lazily described lists: class MockList and the `mockList` helper (lib/mockServer.js:255-273),
 * and the loop in the field resolver that expands a merged MockList (lib/mockServer.js:71-79).
 */
module MockLists {
  import opened Wrappers
  import opened MockValues
  import opened MergeEngine
  import opened MergeProperties

  /** `new MockList(length, mockFunction)`: without a function the generator stays `undefined`. */
  function NewMockList(length: int, itemMock: Option<Call -> Value>): Value {
    MockList(length, if itemMock.Some? then Gen(itemMock.value) else Const(Undefined))
  }

  /** `mockList(size, itemMock)`: a mock function that returns a fresh MockList on every call. */
  function MockListMock(size: int, itemMock: Option<Call -> Value>): Source {
    Gen((_: Call) => NewMockList(size, itemMock))
  }

  const NotAFunctionMessage := "mergedValue.mockFunction is not a function"

  /** `mergedValue.mockFunction(args, index)`: the generator is called directly, so a missing one throws a TypeError. */
  function CallItem(gen: Source, args: Args, index: nat): Result<Value, Thrown> {
    if IsCallable(gen) then Eval(gen, Call(args, Some(index)))
    else Err(Thrown("TypeError", NotAFunctionMessage))
  }

  /**
   * The resolver's `for` loop: item `index` is the generator's value at `index`, for every index
   * below the length (none when the length is not positive); the first item that throws aborts it.
   */
  method ExpandMockList(length: int, gen: Source, args: Args) returns (r: Result<seq<Value>, Thrown>)
    ensures r.Ok? <==> forall i :: 0 <= i < length ==> CallItem(gen, args, i).Ok?
    ensures r.Ok? ==> |r.value| == (if length < 0 then 0 else length)
    ensures r.Ok? ==> forall i :: 0 <= i < |r.value| ==> CallItem(gen, args, i) == Ok(r.value[i])
    ensures r.Err? ==> exists i :: 0 <= i < length && CallItem(gen, args, i) == Err(r.error) &&
                                   forall j :: 0 <= j < i ==> CallItem(gen, args, j).Ok?
  {
    var mergedArray: seq<Value> := [];
    var index := 0;
    while index < length
      invariant 0 <= index
      invariant length >= 0 ==> index <= length
      invariant length < 0 ==> index == 0
      invariant |mergedArray| == index
      invariant forall j :: 0 <= j < index ==> CallItem(gen, args, j) == Ok(mergedArray[j])
    {
      var item := CallItem(gen, args, index);
      if item.Err? {
        return Err(item.error);
      }
      mergedArray := mergedArray + [item.value];
      index := index + 1;
    }
    return Ok(mergedArray);
  }

  /**
   * A `mockList(n, f)` base under an undefined override: a list of n items, item i reading
   * exactly as `f(args, i)` wherever that item ends in leaves.
   */
  lemma MockListOverUndefined(n: int, f: Call -> Value, call: Call, args: Args, i: nat, steps: seq<Step>)
    requires BaseReaches(Gen(f), Call(args, Some(i)), steps)
    ensures MergeMocks(MockListMock(n, Some(f)), Const(Undefined), call)
         == Ok(MockList(n, MergeNode(Gen(f), Const(Undefined))))
    ensures CallItem(MergeNode(Gen(f), Const(Undefined)), args, i) == MergeMocks(Gen(f), Const(Undefined), Call(args, Some(i)))
    ensures Walk(MergeNode(Gen(f), Const(Undefined)), Call(args, Some(i)), steps) == Walk(Gen(f), Call(args, Some(i)), steps)
  {
    assert Eval(MockListMock(n, Some(f)), call) == Ok(MockList(n, Gen(f)));
    BaseShowsThrough(Gen(f), Call(args, Some(i)), steps);
  }

  /**
   * A literal array override over a `mockList(n, f)` base: the list has the array's length, not n,
   * and item i is `f(args, i)` merged with the array's i-th entry.
   */
  lemma ArrayOverMockList(n: int, f: Call -> Value, items: seq<Value>, call: Call, args: Args, i: nat)
    requires i < |items|
    ensures MergeMocks(MockListMock(n, Some(f)), Const(Array(items)), call)
         == Ok(MockList(|items|, MergeNode(Gen(f), IndexInto(items))))
    ensures CallItem(MergeNode(Gen(f), IndexInto(items)), args, i) == MergeMocks(Gen(f), Const(items[i]), Call(args, Some(i)))
  {
    assert Eval(MockListMock(n, Some(f)), call) == Ok(MockList(n, Gen(f)));
    ArrayOverrideItem(Gen(f), items, args, i);
  }

  /** Two MockLists: the override's length wins and item i merges the two generators at i. */
  lemma MockListOverMockList(n: int, f: Call -> Value, m: int, g: Call -> Value, call: Call, args: Args, i: nat)
    ensures MergeMocks(MockListMock(n, Some(f)), MockListMock(m, Some(g)), call)
         == Ok(MockList(m, MergeNode(Gen(f), Gen(g))))
    ensures CallItem(MergeNode(Gen(f), Gen(g)), args, i) == MergeMocks(Gen(f), Gen(g), Call(args, Some(i)))
  {
    assert Eval(MockListMock(n, Some(f)), call) == Ok(MockList(n, Gen(f)));
    assert Eval(MockListMock(m, Some(g)), call) == Ok(MockList(m, Gen(g)));
  }
}
