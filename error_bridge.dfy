/**
 * Declared errors versus internal faults (lib/mockServer.js:323-345). A mock that returns an
 * `Error` value produces an ordinary field error; anything the resolution logic throws is
 * wrapped as a MockError and, once the query engine has answered, rethrown to the caller.
 */
module ErrorBridge {
  import opened Wrappers
  import opened MockValues

  /** What a wrapped field resolver gives the query engine: a value, or a thrown MockError. */
  datatype FieldOutcome = Resolved(value: Value) | Faulted(message: string)

  /** `markUnexpectedErrors`: a throw becomes a MockError whose message is `String(error)`. */
  function MarkUnexpectedErrors(r: Result<Value, Thrown>): (o: FieldOutcome)
    ensures o.Faulted? <==> r.Err?
    ensures r.Ok? ==> o.value == r.value
    ensures r.Err? ==> o.message == r.error.name + ": " + r.error.message
  {
    match r
    case Ok(v) => Resolved(v)
    case Err(e) => Faulted(Describe(e))
  }

  /** An entry of the query result's error list, and whether its original error was a MockError. */
  datatype ReportedError = ReportedError(message: string, isMockError: bool)

  /** How the query engine lists a field outcome: a returned Error is a declared error, a MockError a fault. */
  function ReportOf(o: FieldOutcome): Option<ReportedError> {
    match o
    case Faulted(m) => Some(ReportedError(m, true))
    case Resolved(v) => if v.ErrorMarker? then Some(ReportedError(v.message, false)) else None
  }

  /** The error list the query engine builds from field outcomes, in order. */
  function Reports(outcomes: seq<FieldOutcome>): (errors: seq<ReportedError>)
    ensures |errors| <= |outcomes|
    ensures (exists e :: e in errors && e.isMockError) <==> (exists o :: o in outcomes && o.Faulted?)
  {
    if outcomes == [] then []
    else
      var head := ReportOf(outcomes[0]);
      var rest := Reports(outcomes[1..]);
      assert forall o :: o in outcomes <==> o == outcomes[0] || o in outcomes[1..];
      if head.Some? then [head.value] + rest else rest
  }

  /** The message of the first MockError in the list, if any. */
  function FirstMockError(errors: seq<ReportedError>): (m: Option<string>)
    ensures m.None? <==> forall e :: e in errors ==> !e.isMockError
    ensures m.Some? ==> exists i :: 0 <= i < |errors| && errors[i].isMockError && errors[i].message == m.value &&
                                    forall j :: 0 <= j < i ==> !errors[j].isMockError
  {
    if errors == [] then None
    else if errors[0].isMockError then Some(errors[0].message)
    else
      var rest := FirstMockError(errors[1..]);
      assert forall e :: e in errors <==> e == errors[0] || e in errors[1..];
      assert rest.Some? ==> exists i :: 1 <= i < |errors| && errors[i].isMockError && errors[i].message == rest.value &&
                                        forall j :: 0 <= j < i ==> !errors[j].isMockError by {
        if rest.Some? {
          var k :| 0 <= k < |errors[1..]| && errors[1..][k].isMockError && errors[1..][k].message == rest.value &&
                   forall j :: 0 <= j < k ==> !errors[1..][j].isMockError;
          assert errors[k + 1] == errors[1..][k];
          assert forall j :: 1 <= j < k + 1 ==> errors[j] == errors[1..][j - 1];
        }
      }
      rest
  }

  /**
   * `throwUnexpectedErrors`: scans the error list in order and rethrows the first MockError;
   * declared errors stay in the result.
   */
  method ThrowUnexpectedErrors(errors: seq<ReportedError>) returns (rethrown: Option<string>)
    ensures rethrown == FirstMockError(errors)
  {
    var i := 0;
    while i < |errors|
      invariant 0 <= i <= |errors|
      invariant forall j :: 0 <= j < i ==> !errors[j].isMockError
      invariant FirstMockError(errors[i..]) == FirstMockError(errors)
    {
      if errors[i].isMockError {
        return Some(errors[i].message);
      }
      assert errors[i..][1..] == errors[i + 1..];
      i := i + 1;
    }
    return None;
  }

  /** A query aborts exactly when some field faulted: declared errors alone never abort it. */
  lemma {:induction false} QueryAbortsOnlyOnFaults(outcomes: seq<FieldOutcome>)
    ensures FirstMockError(Reports(outcomes)).Some? <==> exists o :: o in outcomes && o.Faulted?
  {
    var errors := Reports(outcomes);
    if FirstMockError(errors).Some? {
      var i :| 0 <= i < |errors| && errors[i].isMockError && errors[i].message == FirstMockError(errors).value;
      assert errors[i] in errors;
    }
  }
}
