/** The vocabulary shared by the whole logging core: values, named arguments,
    events, and the run-time facts (frames, errors, time) that events carry. */
module Events {

  /** A point in time; `ZeroTime` stands for Go's `time.Time{}`. */
  datatype Time = Time(instant: int)

  const ZeroTime: Time := Time(0)

  /** One frame of a goroutine's call stack as the Go run time reports it:
      the absolute file path, the line, and the package-qualified function
      name (`pkg/sub.Type.Method`). */
  datatype Frame = Frame(file: string, line: nat, funcName: string)

  /** The root cause of an error as `errors.Cause` finds it: a
      `syscall.Errno`, or a value of some other dynamic type. */
  datatype Cause =
    | Errno(code: int)
    | OtherCause(typeName: string)
  {
    /** `reflect.TypeOf(cause).String()`. */
    function TypeName(): string
    {
      match this
      case Errno(_) => "syscall.Errno"
      case OtherCause(name) => name
    }
  }

  /** An error value: what `Error()` returns, its root cause, and the stack
      it carries when it implements `StackTrace()`. */
  datatype ErrorValue = ErrorValue(message: string, cause: Cause, stack: Option<seq<Frame>>)

  datatype Option<T> = None | Some(value: T)

  /** An HTTP header entry: one name with one of its values. */
  datatype Header = Header(name: string, value: string)

  /** The dynamic values that travel in `interface{}` arguments. */
  datatype Value =
    | Str(s: string)
    | Int(i: int)
    | Error(err: ErrorValue)
    | ArgList(args: seq<Arg>)          // an `events.Args` passed as a value
    | HeaderList(headers: seq<Header>) // an `*httpevents.headerList`
    | Opaque(id: nat)                  // any other value

  /** A named value; the name may be empty. */
  datatype Arg = Arg(name: string, value: Value)

  /** One log event. */
  datatype Event = Event(message: string, source: string, time: Time, debug: bool, args: seq<Arg>)

  /** `Event.Clone`: a deep copy. On values, the copy is the value itself. */
  function Clone(e: Event): (c: Event)
    ensures c.message == e.message && c.source == e.source && c.time == e.time
    ensures c.debug == e.debug && c.args == e.args
  {
    e
  }

  predicate IsError(v: Value)
  {
    v.Error?
  }

  /** The error-valued arguments, in order. */
  function Errors(args: seq<Arg>): (r: seq<ErrorValue>)
    ensures |r| <= |args|
  {
    if args == [] then []
    else (if IsError(args[0].value) then [args[0].value.err] else []) + Errors(args[1..])
  }

  /** The arguments whose value is not an error, in order. */
  function NonErrors(args: seq<Arg>): (r: seq<Arg>)
    ensures |r| <= |args|
    ensures forall k :: 0 <= k < |r| ==> !IsError(r[k].value)
  {
    if args == [] then []
    else (if IsError(args[0].value) then [] else [args[0]]) + NonErrors(args[1..])
  }

  predicate HasError(args: seq<Arg>)
  {
    exists k :: 0 <= k < |args| && IsError(args[k].value)
  }

  /** Every argument lands in exactly one of the two lists. */
  lemma {:induction false} PartitionSizes(args: seq<Arg>)
    ensures |Errors(args)| + |NonErrors(args)| == |args|
    ensures Errors(args) == [] <==> !HasError(args)
  {
    if args != [] {
      PartitionSizes(args[1..]);
      if !IsError(args[0].value) && HasError(args) {
        var k :| 0 <= k < |args| && IsError(args[k].value);
        assert IsError(args[1..][k - 1].value);
      }
      if HasError(args[1..]) {
        var k :| 0 <= k < |args[1..]| && IsError(args[1..][k].value);
        assert IsError(args[k + 1].value);
      }
    }
  }

  lemma {:induction false} ErrorsConcat(a: seq<Arg>, b: seq<Arg>)
    ensures Errors(a + b) == Errors(a) + Errors(b)
    decreases |a|
  {
    if a == [] {
      assert a + b == b;
    } else {
      assert (a + b)[0] == a[0] && (a + b)[1..] == a[1..] + b;
      ErrorsConcat(a[1..], b);
      calc {
        Errors(a + b);
        Errors([a[0]]) + Errors(a[1..] + b);
        Errors([a[0]]) + Errors(a[1..]) + Errors(b);
        Errors(a) + Errors(b);
      }
    }
  }

  lemma {:induction false} NonErrorsConcat(a: seq<Arg>, b: seq<Arg>)
    ensures NonErrors(a + b) == NonErrors(a) + NonErrors(b)
    decreases |a|
  {
    if a == [] {
      assert a + b == b;
    } else {
      assert (a + b)[1..] == a[1..] + b;
      NonErrorsConcat(a[1..], b);
    }
  }

  /** An `io.Writer` as the record of the byte slices written to it. */
  class Writer {
    var writes: seq<string>

    constructor ()
      ensures writes == []
    {
      writes := [];
    }

    method Write(b: string)
      modifies this
      ensures writes == old(writes) + [b]
    {
      writes := writes + [b];
    }
  }
}
