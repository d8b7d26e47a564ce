/**
 * The values a mock can produce, and the mock sources that produce them.
 *
 * A JavaScript mock is either a literal or a function `(args, index) => value`. The
 * merge engine probes such values at run time with `typeof` and `instanceof`; here
 * every shape it distinguishes is a constructor of `Value`, and every kind of callable
 * it builds or receives is a constructor of `Source`.
 */
module MockValues {
  import opened Wrappers

  /** A field argument as the query engine passes it (null arguments are absent keys). */
  datatype Arg = ArgStr(s: string) | ArgInt(n: int)

  type Args = map<string, Arg>

  /** The arguments a mock function is invoked with: the field arguments and, inside a list, the item index. */
  datatype Call = Call(args: Args, index: Option<nat>)

  /** What evaluating a mock yields. */
  datatype Value =
    | Undefined                                   // `undefined`
    | Null                                        // `null`
    | Str(s: string)
    | Bool(b: bool)
    | Num(n: int)                                 // numbers are modelled as integers
    | ErrorMarker(message: string)                // an `Error` returned (not thrown) by a mock
    | Array(items: seq<Value>)                    // a raw JavaScript array
    | MockList(length: int, gen: Source)          // an instance of class MockList
    | Object(fields: map<string, Source>)         // a plain object; each field is itself a mock

  /** Something that can stand where the source has a mock: a literal or a callable. */
  datatype Source =
    | Const(v: Value)                             // a literal (`typeof mock !== 'function'`)
    | Gen(f: Call -> Value)                       // a user-written mock function
    | MergeNode(base: Source, over: Source)       // the deferred `mergeMocks(base, over)` closure
    | IndexInto(items: seq<Value>)                // `({}, index) => overrideArray[index]`

  /** The values mergeMocks returns as soon as the override produces them (null, string, boolean, number, Error). */
  predicate IsLeafValue(v: Value) {
    v.Null? || v.Str? || v.Bool? || v.Num? || v.ErrorMarker?
  }

  /** `typeof v` is 'string', 'boolean' or 'number'. */
  predicate IsScalar(v: Value) {
    v.Str? || v.Bool? || v.Num?
  }

  /** JavaScript truthiness of a value. */
  predicate Truthy(v: Value) {
    match v
    case Undefined => false
    case Null => false
    case Str(s) => s != ""
    case Bool(b) => b
    case Num(n) => n != 0
    case _ => true
  }

  /** `typeof mock === 'function'`. */
  predicate IsCallable(s: Source) {
    !s.Const?
  }

  /** JavaScript truthiness of a mock: every function is truthy. */
  predicate SourceTruthy(s: Source) {
    match s
    case Const(v) => Truthy(v)
    case _ => true
  }

  /** `fields[key]`, with a missing key read as `undefined`. */
  function Field(fields: map<string, Source>, key: string): Source {
    if key in fields then fields[key] else Const(Undefined)
  }

  /** `value[key]`: the mock a parent value holds for one of its fields. */
  function Child(v: Value, key: string): Source {
    if v.Object? then Field(v.fields, key) else Const(Undefined)
  }

  /** A thrown JavaScript error: its class name and its message. */
  datatype Thrown = Thrown(name: string, message: string)

  /** `throw Error(message)`. */
  function Failure(message: string): Thrown {
    Thrown("Error", message)
  }

  /** `String(error)`, which is the message `new MockError(error)` receives. */
  function Describe(e: Thrown): string {
    e.name + ": " + e.message
  }

  /** A measure on sources that decreases from a deferred merge to its two halves. */
  function Size(s: Source): nat {
    match s
    case MergeNode(b, o) => Size(b) + Size(o) + 2
    case _ => 1
  }
}
