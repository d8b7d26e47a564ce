/** What `mergeMocks` promises: which side wins, result shapes, lengths and key sets, at any depth. */
module MergeProperties {
  import opened Wrappers
  import opened MockValues
  import opened MergeEngine

  /** A leaf (or an Error) from the override is returned as is, whatever the base is or would throw. */
  lemma OverrideLeafWins(base: Source, over: Source, call: Call)
    requires Eval(over, call).Ok? && IsLeafValue(Eval(over, call).value)
    ensures MergeMocks(base, over, call) == Eval(over, call)
  {
  }

  /** A base that evaluates to a raw array is rejected unless the override already decided the result. */
  lemma BaseArrayRejected(base: Source, over: Source, call: Call)
    requires Eval(over, call).Ok? && !IsLeafValue(Eval(over, call).value)
    requires Eval(base, call).Ok? && Eval(base, call).value.Array?
    ensures MergeMocks(base, over, call) == Err(Failure(BaseArrayMessage))
  {
  }

  /** A null base yields null unless the override is a leaf. */
  lemma NullBaseYieldsNull(base: Source, over: Source, call: Call)
    requires Eval(over, call).Ok? && !IsLeafValue(Eval(over, call).value)
    requires Eval(base, call) == Ok(Null)
    ensures MergeMocks(base, over, call) == Ok(Null)
  {
  }

  /** An undefined override keeps a scalar or Error base unchanged. */
  lemma UndefinedOverrideKeepsLeafBase(base: Source, over: Source, call: Call)
    requires Eval(over, call) == Ok(Undefined)
    requires Eval(base, call).Ok? && (IsScalar(Eval(base, call).value) || Eval(base, call).value.ErrorMarker?)
    ensures MergeMocks(base, over, call) == Eval(base, call)
  {
  }

  /** A defined composite override (object, array or MockList) cannot be merged into a scalar base. */
  lemma ScalarBaseRejectsComposite(base: Source, over: Source, call: Call)
    requires Eval(over, call).Ok? && !IsLeafValue(Eval(over, call).value) && !Eval(over, call).value.Undefined?
    requires Eval(base, call).Ok? && IsScalar(Eval(base, call).value)
    ensures MergeMocks(base, over, call) == Err(Failure(ScalarBaseMessage))
  {
  }

  /** An undefined base hands the evaluated override through untouched: undefined is a left identity. */
  lemma UndefinedBaseIsIdentity(base: Source, over: Source, call: Call)
    requires Eval(base, call) == Ok(Undefined)
    ensures MergeMocks(base, over, call) == Eval(over, call)
  {
  }

  /** The length a merged list takes: the array's, else the override MockList's, else the base's. */
  function MergedLength(baseList: Value, over: Value): int
    requires baseList.MockList?
  {
    if over.Array? then |over.items| else if over.MockList? then over.length else baseList.length
  }

  /** The generator a list override contributes to each item. */
  function OverrideItems(over: Value): Source {
    if over.Array? then IndexInto(over.items) else if over.MockList? then over.gen else Const(Undefined)
  }

  /**
   * Merging over a MockList base gives a MockList whose length is the override's (the base's when
   * the override is undefined) and whose item i is the merge of the two item generators at index i.
   */
  lemma ListMerge(base: Source, over: Source, call: Call, itemCall: Call)
    requires Eval(base, call).Ok? && Eval(base, call).value.MockList?
    requires Eval(over, call).Ok?
    requires var ov := Eval(over, call).value; ov.Undefined? || ov.MockList? || ov.Array?
    ensures var bl, ov := Eval(base, call).value, Eval(over, call).value;
      && MergeMocks(base, over, call) == Ok(MockList(MergedLength(bl, ov), MergeNode(bl.gen, OverrideItems(ov))))
      && Eval(MergeNode(bl.gen, OverrideItems(ov)), itemCall) == MergeMocks(bl.gen, OverrideItems(ov), itemCall)
  {
  }

  /** Over a MockList base, an override that is defined but neither a MockList nor an array is rejected. */
  lemma ListMergeRejectsOtherOverrides(base: Source, over: Source, call: Call)
    requires Eval(base, call).Ok? && Eval(base, call).value.MockList?
    requires Eval(over, call).Ok? && Eval(over, call).value.Object?
    ensures MergeMocks(base, over, call) == Err(Failure(ListOverrideMessage))
  {
  }

  /** Item i of a literal array override is the array's i-th entry, and undefined past its end. */
  lemma ArrayOverrideItem(itemBase: Source, items: seq<Value>, args: Args, i: nat)
    ensures MergeMocks(itemBase, IndexInto(items), Call(args, Some(i)))
         == MergeMocks(itemBase, Const(if i < |items| then items[i] else Undefined), Call(args, Some(i)))
  {
    var call := Call(args, Some(i));
    assert Eval(IndexInto(items), call) == Eval(Const(if i < |items| then items[i] else Undefined), call);
  }

  /** A list-shaped override over a base that is an object or an Error is a type mismatch. */
  lemma ListOverrideNeedsListBase(base: Source, over: Source, call: Call)
    requires Eval(over, call).Ok? && (Eval(over, call).value.MockList? || Eval(over, call).value.Array?)
    requires Eval(base, call).Ok? && (Eval(base, call).value.Object? || Eval(base, call).value.ErrorMarker?)
    ensures MergeMocks(base, over, call) == Err(Failure(ShapeMismatchMessage))
  {
  }

  /**
   * Object merge: the result's keys are exactly the union of both sides' keys (an undefined
   * override and an Error base count as `{}`), and each key evaluates, whenever it is read,
   * to the merge of the two sides' mocks for that key.
   */
  lemma ObjectMerge(base: Source, over: Source, call: Call, fieldCall: Call)
    requires Eval(over, call).Ok? && (Eval(over, call).value.Object? || Eval(over, call).value.Undefined?)
    requires Eval(base, call).Ok? && Eval(base, call).value.Object?
    ensures var bf, ov := Eval(base, call).value.fields, Eval(over, call).value;
      var of := if ov.Object? then ov.fields else map[];
      && MergeMocks(base, over, call).Ok?
      && MergeMocks(base, over, call).value.Object?
      && MergeMocks(base, over, call).value.fields.Keys == of.Keys + bf.Keys
      && forall k :: k in MergeMocks(base, over, call).value.fields ==>
           Eval(MergeMocks(base, over, call).value.fields[k], fieldCall) == MergeMocks(Field(bf, k), Field(of, k), fieldCall)
  {
  }

  /**
   * An Error base is kept when the override is undefined, and replaced by `{}` when the
   * override is an object: the result then has exactly the override's keys, each merged over undefined.
   */
  lemma ErrorBaseRescuedByObject(base: Source, over: Source, call: Call, fieldCall: Call)
    requires Eval(base, call).Ok? && Eval(base, call).value.ErrorMarker?
    requires Eval(over, call).Ok? && (Eval(over, call).value.Object? || Eval(over, call).value.Undefined?)
    ensures Eval(over, call).value.Undefined? ==> MergeMocks(base, over, call) == Eval(base, call)
    ensures var ov := Eval(over, call).value;
      ov.Object? ==>
        && MergeMocks(base, over, call).Ok?
        && MergeMocks(base, over, call).value.Object?
        && MergeMocks(base, over, call).value.fields.Keys == ov.fields.Keys
        && forall k :: k in ov.fields ==>
             Eval(MergeMocks(base, over, call).value.fields[k], fieldCall) == MergeMocks(Const(Undefined), ov.fields[k], fieldCall)
  {
  }

  /** Along `steps` the override evaluates to objects and ends in a leaf (or throws on the way). */
  ghost predicate OverrideSpeaks(over: Source, call: Call, steps: seq<Step>)
    decreases |steps|
  {
    match Eval(over, call)
    case Err(_) => true
    case Ok(ov) =>
      if steps == [] then IsLeafValue(ov)
      else ov.Object? && OverrideSpeaks(Field(ov.fields, steps[0].key), steps[0].call, steps[1..])
  }

  /** Along `steps` the base is an object, or stops being one by being undefined or an Error. */
  ghost predicate BaseOpen(base: Source, call: Call, steps: seq<Step>)
    decreases |steps|
  {
    steps == [] ||
    match Eval(base, call)
    case Err(_) => false
    case Ok(bv) =>
      || bv.Undefined?
      || bv.ErrorMarker?
      || (bv.Object? && BaseOpen(Field(bv.fields, steps[0].key), steps[0].call, steps[1..]))
  }

  /** Deep merge, override side: wherever the override names a leaf, that leaf is what is read, at any depth. */
  lemma {:induction false} OverrideWinsAtDepth(base: Source, over: Source, call: Call, steps: seq<Step>)
    requires OverrideSpeaks(over, call, steps)
    requires BaseOpen(base, call, steps)
    ensures Walk(MergeNode(base, over), call, steps) == Walk(over, call, steps)
    decreases |steps|
  {
    if Eval(over, call).Err? {
      assert MergeMocks(base, over, call) == Eval(over, call);
    } else if steps == [] {
      assert MergeMocks(base, over, call) == Eval(over, call);
    } else {
      var ov := Eval(over, call).value;
      var bv := Eval(base, call).value;
      if bv.Undefined? {
        assert MergeMocks(base, over, call) == Ok(ov);
      } else {
        var bf := if bv.Object? then bv.fields else map[];
        var key := steps[0].key;
        assert MergeMocks(base, over, call) == Ok(Object(MergedFields(bf, ov.fields)));
        var next := Field(ov.fields, key);
        assert Child(Object(MergedFields(bf, ov.fields)), key) == MergeNode(Field(bf, key), next);
        OverrideWinsAtDepth(Field(bf, key), next, steps[0].call, steps[1..]);
      }
    }
  }

  /** Along `steps` the base never yields a raw array and ends in something other than an object or a list. */
  ghost predicate BaseReaches(base: Source, call: Call, steps: seq<Step>)
    decreases |steps|
  {
    match Eval(base, call)
    case Err(_) => true
    case Ok(bv) =>
      && !bv.Array?
      && if steps == [] then !bv.Object? && !bv.MockList?
         else BaseReaches(Child(bv, steps[0].key), steps[0].call, steps[1..])
  }

  /** Deep merge, base side: where the override is silent, every leaf of the base shows through, at any depth. */
  lemma {:induction false} BaseShowsThrough(base: Source, call: Call, steps: seq<Step>)
    requires BaseReaches(base, call, steps)
    ensures Walk(MergeNode(base, Const(Undefined)), call, steps) == Walk(base, call, steps)
    decreases |steps|
  {
    if Eval(base, call).Err? {
      assert MergeMocks(base, Const(Undefined), call) == Eval(base, call);
    } else if steps == [] {
      assert MergeMocks(base, Const(Undefined), call) == Eval(base, call);
    } else {
      var bv := Eval(base, call).value;
      var key := steps[0].key;
      if bv.Object? {
        assert MergeMocks(base, Const(Undefined), call) == Ok(Object(MergedFields(bv.fields, map[])));
        if key in bv.fields {
          assert Child(Object(MergedFields(bv.fields, map[])), key) == MergeNode(bv.fields[key], Const(Undefined));
          BaseShowsThrough(bv.fields[key], steps[0].call, steps[1..]);
        } else {
          assert Child(Object(MergedFields(bv.fields, map[])), key) == Const(Undefined);
        }
      } else if bv.MockList? {
        assert MergeMocks(base, Const(Undefined), call) == Ok(MockList(bv.length, MergeNode(bv.gen, Const(Undefined))));
      } else {
        assert MergeMocks(base, Const(Undefined), call) == Eval(base, call);
      }
    }
  }

  /**
   * A MockList base under an undefined override keeps its length, and every item reads
   * exactly like the base generator's item wherever that item ends in leaves.
   */
  lemma ListOverUndefinedKeepsItems(base: Source, call: Call, itemCall: Call, steps: seq<Step>)
    requires Eval(base, call).Ok? && Eval(base, call).value.MockList?
    requires BaseReaches(Eval(base, call).value.gen, itemCall, steps)
    ensures var bl := Eval(base, call).value;
      && MergeMocks(base, Const(Undefined), call) == Ok(MockList(bl.length, MergeNode(bl.gen, Const(Undefined))))
      && Walk(MergeNode(bl.gen, Const(Undefined)), itemCall, steps) == Walk(bl.gen, itemCall, steps)
  {
    BaseShowsThrough(Eval(base, call).value.gen, itemCall, steps);
  }

  /** `merge({a: 1, b: 2}, {b: 3, c: 4})` reads as `a = 1, b = 3, c = 4`. */
  lemma ShallowMergeExample(call: Call, fieldCall: Call)
    ensures var r := MergeMocks(Const(Object(map["a" := Const(Num(1)), "b" := Const(Num(2))])),
                                Const(Object(map["b" := Const(Num(3)), "c" := Const(Num(4))])), call);
      && r.Ok? && r.value.Object?
      && r.value.fields.Keys == {"a", "b", "c"}
      && Eval(r.value.fields["a"], fieldCall) == Ok(Num(1))
      && Eval(r.value.fields["b"], fieldCall) == Ok(Num(3))
      && Eval(r.value.fields["c"], fieldCall) == Ok(Num(4))
  {
    var bf := map["a" := Const(Num(1)), "b" := Const(Num(2))];
    var of := map["b" := Const(Num(3)), "c" := Const(Num(4))];
    assert MergeMocks(Const(Object(bf)), Const(Object(of)), call) == Ok(Object(MergedFields(bf, of)));
    assert MergeMocks(Const(Num(1)), Const(Undefined), fieldCall) == Ok(Num(1));
  }
}
