/**
 * The relay connection mock (`mockRelayConnection`, `getRelayConnectionError` and
 * `isEmptyString`, lib/mockServer.js:349-400): pagination arguments in, an `edges` list
 * and a `pageInfo` object out, with argument errors reported in-band on every leaf.
 */
module RelayConnection {
  import opened Wrappers
  import opened MockValues
  import opened MergeEngine

  /** `mockRelayConnection(params)`: an optional page bound and an optional node mock. */
  datatype RelayParams = RelayParams(maxSize: Option<int>, nodeMock: Option<Call -> Value>)

  const BothCursorsMessage := "Before and after cannot be both set"
  const FirstXorLastMessage := "Either first xor last should be set"
  const NegativeSizeMessage := "First and last cannot be negative"

  function ArgOf(args: Args, name: string): Option<Arg> {
    if name in args then Some(args[name]) else None
  }

  /** An `Int` argument; `first` and `last` are `Int` in a connection's schema. */
  function IntArg(args: Args, name: string): Option<int> {
    if name in args && args[name].ArgInt? then Some(args[name].n) else None
  }

  /** `isEmptyString`: `!string || string.length === 0`. */
  predicate IsEmptyString(a: Option<Arg>) {
    match a
    case None => true
    case Some(ArgStr(s)) => |s| == 0
    case Some(ArgInt(n)) => n == 0
  }

  /** The first argument check that fails, in the order lib/mockServer.js:355-365 makes them. */
  function ArgsProblem(args: Args): Option<string> {
    var first, last := IntArg(args, "first"), IntArg(args, "last");
    if !IsEmptyString(ArgOf(args, "before")) && !IsEmptyString(ArgOf(args, "after")) then Some(BothCursorsMessage)
    else if first.Some? == last.Some? then Some(FirstXorLastMessage)
    else if (first.Some? && first.value < 0) || (last.Some? && last.value < 0) then Some(NegativeSizeMessage)
    else None
  }

  /** The arguments are accepted exactly when at most one cursor is set and exactly one non-negative size is. */
  lemma ArgsAccepted(args: Args)
    ensures var first, last := IntArg(args, "first"), IntArg(args, "last");
      ArgsProblem(args).None? <==>
        && (IsEmptyString(ArgOf(args, "before")) || IsEmptyString(ArgOf(args, "after")))
        && (first.Some? != last.Some?)
        && (first.Some? ==> first.value >= 0)
        && (last.Some? ==> last.value >= 0)
  {
  }

  /** `getRelayConnectionError`: one edge whose node and cursor, and both pageInfo flags, are the error. */
  function ConnectionError(message: string): Value {
    Object(map[
      "edges" := Const(MockList(1, Gen((_: Call) => Object(map[
        "node" := Const(ErrorMarker(message)),
        "cursor" := Const(ErrorMarker(message))])))),
      "pageInfo" := Const(Object(map[
        "hasNextPage" := Const(ErrorMarker(message)),
        "hasPreviousPage" := Const(ErrorMarker(message))]))])
  }

  /** `first ?? last`, for accepted arguments. */
  function RequestedPageSize(args: Args): (n: int)
    requires ArgsProblem(args).None?
    ensures n >= 0
  {
    var first := IntArg(args, "first");
    if first.Some? then first.value else IntArg(args, "last").value
  }

  /** The page size as lib/mockServer.js:370-371 computes it: a `maxSize` of 0 is falsy and clamps nothing. */
  function PageSizeAsWritten(maxSize: Option<int>, requested: int): int {
    if maxSize.Some? && maxSize.value != 0 && requested > maxSize.value then maxSize.value else requested
  }

  /** With `maxSize` 0 and `first` 3 the page holds 3 edges, yet `hasMorePages` already reports no further page. */
  lemma ZeroMaxSizeDoesNotClamp()
    ensures PageSizeAsWritten(Some(0), 3) == 3
    ensures !HasMorePages(Some(0), PageSizeAsWritten(Some(0), 3))
  {
  }

  /** The page size clamped by any configured `maxSize`, 0 included. */
  function PageSize(maxSize: Option<int>, requested: int): (n: int)
    ensures maxSize.None? ==> n == requested
    ensures maxSize.Some? ==> n <= maxSize.value && n <= requested
    ensures maxSize.Some? ==> n == requested || n == maxSize.value
  {
    if maxSize.Some? && requested > maxSize.value then maxSize.value else requested
  }

  /** The corrected size differs from the written one only for a `maxSize` of 0. */
  lemma PageSizeAgreesExceptZero(maxSize: Option<int>, requested: int)
    requires maxSize != Some(0)
    ensures PageSizeAsWritten(maxSize, requested) == PageSize(maxSize, requested)
  {
  }

  /** `hasMorePages`: with a `maxSize` a page has more only below it; without one, always. */
  function HasMorePages(maxSize: Option<int>, pageSize: int): bool {
    if maxSize.Some? then pageSize < maxSize.value else true
  }

  function DigitChar(d: nat): char
    requires d < 10
  {
    ('0' as int + d) as char
  }

  /** The decimal text of a natural number, as a template literal prints it. */
  function NatToString(n: nat): (s: string)
    ensures |s| >= 1
    ensures n >= 10 ==> |s| >= 2
  {
    if n < 10 then [DigitChar(n)] else NatToString(n / 10) + [DigitChar(n % 10)]
  }

  /** Different numbers print differently. */
  lemma {:induction false} NatToStringInjective(a: nat, b: nat)
    requires NatToString(a) == NatToString(b)
    ensures a == b
    decreases a
  {
    var s := NatToString(a);
    if a >= 10 && b >= 10 {
      assert s[..|s| - 1] == NatToString(a / 10) && s[..|s| - 1] == NatToString(b / 10);
      assert DigitChar(a % 10) == s[|s| - 1] == DigitChar(b % 10);
      NatToStringInjective(a / 10, b / 10);
    } else if a < 10 && b < 10 {
      assert DigitChar(a) == s[0] == DigitChar(b);
    }
  }

  /** `${index}` in the edge generator: an index, or the word undefined when none was passed. */
  function IndexText(index: Option<nat>): string {
    if index.Some? then NatToString(index.value) else "undefined"
  }

  /** The edge built for one index: the node mock's value (or undefined) and the cursor `cursor_<index>`. */
  function EdgeAt(params: RelayParams, args: Args, index: Option<nat>): Value {
    Object(map[
      "node" := Const(if params.nodeMock.Some? then params.nodeMock.value(Call(args, index)) else Undefined),
      "cursor" := Const(Str("cursor_" + IndexText(index)))])
  }

  /**
   * The number of edges for an accepted request: as lib/mockServer.js:370-371 computes it, or,
   * when `corrected`, with every configured `maxSize` clamping (see `PageSize`).
   */
  function EdgeCount(corrected: bool, maxSize: Option<int>, requested: int): (n: int)
    ensures maxSize != Some(0) ==> n == PageSize(maxSize, requested)
    ensures !corrected && maxSize == Some(0) ==> n == requested
  {
    if corrected then PageSize(maxSize, requested)
    else PageSizeAsWritten(maxSize, requested)
  }

  /**
   * The value the connection mock returns for one set of arguments. `corrected == false` is the
   * source's behaviour; `corrected == true` applies the `maxSize: 0` correction.
   */
  function Connection(params: RelayParams, args: Args, corrected: bool): Value {
    match ArgsProblem(args)
    case Some(message) => ConnectionError(message)
    case None =>
      var isForward := IntArg(args, "first").Some?;
      var pageSize := EdgeCount(corrected, params.maxSize, RequestedPageSize(args));
      var hasMore := HasMorePages(params.maxSize, pageSize);
      Object(map[
        "edges" := Const(MockList(pageSize, Gen((c: Call) => EdgeAt(params, args, c.index)))),
        "pageInfo" := Const(Object(map[
          "hasNextPage" := Const(Bool(if isForward then hasMore else false)),
          "hasPreviousPage" := Const(Bool(if isForward then false else hasMore))]))])
  }

  /** `mockRelayConnection(params)`: a mock function of the connection field's arguments. */
  function RelayConnectionMock(params: RelayParams, corrected: bool): Source {
    Gen((c: Call) => Connection(params, c.args, corrected))
  }

  /** The correction changes the connection only when `maxSize` is 0. */
  lemma CorrectionOnlyAffectsZeroBound(params: RelayParams, args: Args)
    requires params.maxSize != Some(0)
    ensures Connection(params, args, false) == Connection(params, args, true)
  {
  }

  /**
   * Rejected arguments surface the same error on every leaf a query can select: both pageInfo
   * flags, and the node and cursor of the single edge.
   */
  lemma RejectedArgsErrorEverywhere(params: RelayParams, corrected: bool, args: Args, index: Option<nat>, message: string,
                                    fieldCall: Call, itemCall: Call, leafCall: Call)
    requires ArgsProblem(args) == Some(message)
    ensures var src, call := RelayConnectionMock(params, corrected), Call(args, index);
      && Walk(src, call, [Step("pageInfo", fieldCall), Step("hasNextPage", leafCall)]) == Ok(ErrorMarker(message))
      && Walk(src, call, [Step("pageInfo", fieldCall), Step("hasPreviousPage", leafCall)]) == Ok(ErrorMarker(message))
    ensures var edges := Walk(RelayConnectionMock(params, corrected), Call(args, index), [Step("edges", fieldCall)]);
      && edges.Ok? && edges.value.MockList? && edges.value.length == 1
      && Walk(edges.value.gen, itemCall, [Step("node", leafCall)]) == Ok(ErrorMarker(message))
      && Walk(edges.value.gen, itemCall, [Step("cursor", leafCall)]) == Ok(ErrorMarker(message))
  {
    var call := Call(args, index);
    assert Eval(RelayConnectionMock(params, corrected), call) == Ok(ConnectionError(message));
    var pageInfo := Object(map[
        "hasNextPage" := Const(ErrorMarker(message)),
        "hasPreviousPage" := Const(ErrorMarker(message))]);
    assert Child(ConnectionError(message), "pageInfo") == Const(pageInfo);
    assert Walk(Const(pageInfo), fieldCall, [Step("hasNextPage", leafCall)])
        == Walk(Const(ErrorMarker(message)), leafCall, []);
    assert Walk(Const(pageInfo), fieldCall, [Step("hasPreviousPage", leafCall)])
        == Walk(Const(ErrorMarker(message)), leafCall, []);
    var edges := Walk(RelayConnectionMock(params, corrected), call, [Step("edges", fieldCall)]);
    assert [Step("edges", fieldCall)][1..] == [];
    assert edges == Walk(Child(ConnectionError(message), "edges"), fieldCall, []);
    var edge := Eval(edges.value.gen, itemCall).value;
    assert edge.fields["node"] == Const(ErrorMarker(message));
    assert edge.fields["cursor"] == Const(ErrorMarker(message));
  }

  /**
   * Accepted arguments: `edges` has the clamped page size, item i has the node mock's value at i
   * and the cursor `cursor_<i>`, and only the pagination direction's pageInfo flag can be true.
   */
  lemma AcceptedArgsShape(params: RelayParams, corrected: bool, args: Args, index: Option<nat>,
                          fieldCall: Call, itemArgs: Args, i: nat, leafCall: Call)
    requires ArgsProblem(args).None?
    ensures var src, call := RelayConnectionMock(params, corrected), Call(args, index);
      var isForward := IntArg(args, "first").Some?;
      var pageSize := EdgeCount(corrected, params.maxSize, RequestedPageSize(args));
      var hasMore := HasMorePages(params.maxSize, pageSize);
      && Walk(src, call, [Step("pageInfo", fieldCall), Step("hasNextPage", leafCall)]) == Ok(Bool(isForward && hasMore))
      && Walk(src, call, [Step("pageInfo", fieldCall), Step("hasPreviousPage", leafCall)]) == Ok(Bool(!isForward && hasMore))
    ensures var edges := Walk(RelayConnectionMock(params, corrected), Call(args, index), [Step("edges", fieldCall)]);
      && edges.Ok? && edges.value.MockList?
      && edges.value.length == EdgeCount(corrected, params.maxSize, RequestedPageSize(args))
      && Walk(edges.value.gen, Call(itemArgs, Some(i)), [Step("cursor", leafCall)]) == Ok(Str("cursor_" + NatToString(i)))
      && Walk(edges.value.gen, Call(itemArgs, Some(i)), [Step("node", leafCall)])
         == Ok(if params.nodeMock.Some? then params.nodeMock.value(Call(args, Some(i))) else Undefined)
  {
    var call := Call(args, index);
    var conn := Connection(params, args, corrected);
    assert Eval(RelayConnectionMock(params, corrected), call) == Ok(conn);
    var pageInfo := Eval(Child(conn, "pageInfo"), fieldCall).value;
    assert Walk(Child(conn, "pageInfo"), fieldCall, [Step("hasNextPage", leafCall)])
        == Walk(Child(pageInfo, "hasNextPage"), leafCall, []);
    assert Walk(Child(conn, "pageInfo"), fieldCall, [Step("hasPreviousPage", leafCall)])
        == Walk(Child(pageInfo, "hasPreviousPage"), leafCall, []);
    var edges := Walk(RelayConnectionMock(params, corrected), call, [Step("edges", fieldCall)]);
    assert [Step("edges", fieldCall)][1..] == [];
    assert edges == Walk(Child(conn, "edges"), fieldCall, []);
    var edge := Eval(edges.value.gen, Call(itemArgs, Some(i))).value;
    assert edge == EdgeAt(params, args, Some(i));
    assert Walk(edges.value.gen, Call(itemArgs, Some(i)), [Step("cursor", leafCall)])
        == Walk(Child(edge, "cursor"), leafCall, []);
    assert Walk(edges.value.gen, Call(itemArgs, Some(i)), [Step("node", leafCall)])
        == Walk(Child(edge, "node"), leafCall, []);
  }

  /** Edges at different indices carry different cursors. */
  lemma CursorsAreDistinct(i: nat, j: nat)
    requires i != j
    ensures "cursor_" + NatToString(i) != "cursor_" + NatToString(j)
  {
    if "cursor_" + NatToString(i) == "cursor_" + NatToString(j) {
      assert ("cursor_" + NatToString(i))[7..] == NatToString(i);
      assert ("cursor_" + NatToString(j))[7..] == NatToString(j);
      NatToStringInjective(i, j);
    }
  }

  /** What a query reads from a connection: the number of edges and the two pageInfo flags. */
  ghost function PageRead(src: Source, call: Call, fieldCall: Call, leafCall: Call): Result<(int, Value, Value), Thrown> {
    var edges :- Walk(src, call, [Step("edges", fieldCall)]);
    var next :- Walk(src, call, [Step("pageInfo", fieldCall), Step("hasNextPage", leafCall)]);
    var previous :- Walk(src, call, [Step("pageInfo", fieldCall), Step("hasPreviousPage", leafCall)]);
    Ok((if edges.MockList? then edges.length else -1, next, previous))
  }

  /** A connection mock read through `PageRead`, for accepted arguments. */
  lemma AcceptedPageRead(params: RelayParams, corrected: bool, args: Args, index: Option<nat>, fieldCall: Call, leafCall: Call)
    requires ArgsProblem(args).None?
    ensures var isForward := IntArg(args, "first").Some?;
      var pageSize := EdgeCount(corrected, params.maxSize, RequestedPageSize(args));
      var hasMore := HasMorePages(params.maxSize, pageSize);
      PageRead(RelayConnectionMock(params, corrected), Call(args, index), fieldCall, leafCall)
        == Ok((pageSize, Bool(isForward && hasMore), Bool(!isForward && hasMore)))
  {
    AcceptedArgsShape(params, corrected, args, index, fieldCall, map[], 0, leafCall);
  }

  /**
   * Without a bound, `first: 3` gives three edges with a next page and no previous page, and
   * `last: 1` one edge with a previous page and no next page.
   */
  lemma UnboundedPages(nodeMock: Option<Call -> Value>, index: Option<nat>, fieldCall: Call, leafCall: Call)
    ensures PageRead(RelayConnectionMock(RelayParams(None, nodeMock), false), Call(map["first" := ArgInt(3)], index),
                     fieldCall, leafCall) == Ok((3, Bool(true), Bool(false)))
    ensures PageRead(RelayConnectionMock(RelayParams(None, nodeMock), false), Call(map["last" := ArgInt(1)], index),
                     fieldCall, leafCall) == Ok((1, Bool(false), Bool(true)))
  {
    AcceptedPageRead(RelayParams(None, nodeMock), false, map["first" := ArgInt(3)], index, fieldCall, leafCall);
    AcceptedPageRead(RelayParams(None, nodeMock), false, map["last" := ArgInt(1)], index, fieldCall, leafCall);
  }

  /** `maxSize: 2` with `first: 3` (or `last: 3`): two edges and neither flag set. */
  lemma BoundedPage(nodeMock: Option<Call -> Value>, index: Option<nat>, fieldCall: Call, leafCall: Call)
    ensures PageRead(RelayConnectionMock(RelayParams(Some(2), nodeMock), false), Call(map["first" := ArgInt(3)], index),
                     fieldCall, leafCall) == Ok((2, Bool(false), Bool(false)))
    ensures PageRead(RelayConnectionMock(RelayParams(Some(2), nodeMock), false), Call(map["last" := ArgInt(3)], index),
                     fieldCall, leafCall) == Ok((2, Bool(false), Bool(false)))
  {
    AcceptedPageRead(RelayParams(Some(2), nodeMock), false, map["first" := ArgInt(3)], index, fieldCall, leafCall);
    AcceptedPageRead(RelayParams(Some(2), nodeMock), false, map["last" := ArgInt(3)], index, fieldCall, leafCall);
  }

  /**
   * `maxSize: 0` with `first: 3`: the connection as written returns three edges while reporting no
   * next page; the corrected connection returns none.
   */
  lemma ZeroMaxSizeConnection(nodeMock: Option<Call -> Value>, index: Option<nat>, fieldCall: Call, leafCall: Call)
    ensures PageRead(RelayConnectionMock(RelayParams(Some(0), nodeMock), false), Call(map["first" := ArgInt(3)], index),
                     fieldCall, leafCall) == Ok((3, Bool(false), Bool(false)))
    ensures PageRead(RelayConnectionMock(RelayParams(Some(0), nodeMock), true), Call(map["first" := ArgInt(3)], index),
                     fieldCall, leafCall) == Ok((0, Bool(false), Bool(false)))
  {
    AcceptedPageRead(RelayParams(Some(0), nodeMock), false, map["first" := ArgInt(3)], index, fieldCall, leafCall);
    AcceptedPageRead(RelayParams(Some(0), nodeMock), true, map["first" := ArgInt(3)], index, fieldCall, leafCall);
  }

  /** A cursor pair is rejected exactly when both `before` and `after` are non-empty strings or non-zero. */
  lemma CursorPairRejected(args: Args)
    ensures ArgsProblem(args) == Some(BothCursorsMessage) <==>
      && "before" in args && args["before"] != ArgStr("") && args["before"] != ArgInt(0)
      && "after" in args && args["after"] != ArgStr("") && args["after"] != ArgInt(0)
  {
  }

  /** `first: 3, last: 1` is rejected with the first-xor-last message. */
  lemma FirstAndLastRejected()
    ensures ArgsProblem(map["first" := ArgInt(3), "last" := ArgInt(1)]) == Some(FirstXorLastMessage)
  {
  }
}
