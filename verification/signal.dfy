/** Signals as errors (signal.go): the error a signal-cancelled context
    reports, the predicates that recognise it, and the context's
    first-cancel-wins state. */
module Signals {
  import opened Events

  /** An `os.Signal`: its number and what its `String()` returns. */
  datatype Signal = Signal(number: int, text: string)
  {
    function String(): string
    {
      text
    }
  }

  /** syscall.SIGINT and syscall.SIGTERM, by their numbers on Linux. */
  const SIGINT: Signal := Signal(2, "interrupt")
  const SIGTERM: Signal := Signal(15, "terminated")

  /** The errors a signal context can report: a `*SignalError`, or any
      other error (`context.Canceled`, the parent's error) by its text. */
  datatype Error =
    | SignalError(signal: Signal)
    | Other(message: string)
  {
    /** Error(): a SignalError reads as its signal. */
    function Error(): (r: string)
      ensures this.SignalError? ==> r == signal.String()
      ensures this.Other? ==> r == message
    {
      match this
      case SignalError(s) => s.String()
      case Other(m) => m
    }
  }

  const Canceled: Error := Other("context canceled")

  /** What IsSignal decides: `err` is a SignalError whose signal is one of
      `signals`, or any SignalError when none are listed. */
  predicate Caught(err: Option<Error>, signals: seq<Signal>)
  {
    err.Some? && err.value.SignalError? && (signals == [] || err.value.signal in signals)
  }

  /** IsSignal: the search over the listed signals. A nil error, or one of
      another type, is never a signal. */
  method IsSignal(err: Option<Error>, signals: seq<Signal>) returns (b: bool)
    ensures b <==> Caught(err, signals)
  {
    if err.Some? && err.value.SignalError? {
      if |signals| == 0 {
        return true;
      }
      for k := 0 to |signals|
        invariant err.value.signal !in signals[..k]
      {
        if signals[k] == err.value.signal {
          return true;
        }
      }
      assert signals[..|signals|] == signals;
    }
    return false;
  }

  /** IsTermination: caused by SIGTERM. */
  method IsTermination(err: Option<Error>) returns (b: bool)
    ensures b <==> err == Some(SignalError(SIGTERM))
  {
    b := IsSignal(err, [SIGTERM]);
  }

  /** IsInterruption: caused by SIGINT. */
  method IsInterruption(err: Option<Error>) returns (b: bool)
    ensures b <==> err == Some(SignalError(SIGINT))
  {
    b := IsSignal(err, [SIGINT]);
  }

  /** Listing more signals only catches more. */
  lemma CaughtWider(err: Option<Error>, a: seq<Signal>, b: seq<Signal>)
    requires a != [] && forall s :: s in a ==> s in b
    ensures Caught(err, a) ==> Caught(err, b)
  {
  }

  /** A termination is not an interruption. */
  lemma TerminationIsNotInterruption(err: Option<Error>)
    ensures !(Caught(err, [SIGTERM]) && Caught(err, [SIGINT]))
  {
  }

  /** The error after one more `cancel(e)`: the first one stays. */
  function Cancelled(err: Option<Error>, e: Error): Option<Error>
  {
    if err.Some? then err else Some(e)
  }

  /** The error after a sequence of cancels, from `err`. */
  function CancelledAll(err: Option<Error>, es: seq<Error>): Option<Error>
    decreases |es|
  {
    if es == [] then err else CancelledAll(Cancelled(err, es[0]), es[1..])
  }

  /** Whatever follows, the first cancel's error is the one reported. */
  lemma {:induction false} FirstCancelWins(es: seq<Error>)
    requires es != []
    ensures CancelledAll(None, es) == Some(es[0])
  {
    StoredStays(Some(es[0]), es[1..]);
  }

  lemma {:induction false} StoredStays(err: Option<Error>, es: seq<Error>)
    requires err.Some?
    ensures CancelledAll(err, es) == err
    decreases |es|
  {
    if es != [] {
      StoredStays(Cancelled(err, es[0]), es[1..]);
    }
  }

  /** signalCtx: the error stored by the first cancel, and whether `done`
      is closed. */
  class SignalContext {
    var err: Option<Error>
    var done: bool

    /** `done` is closed exactly when an error is stored. */
    ghost predicate Valid()
      reads this
    {
      done <==> err.Some?
    }

    constructor ()
      ensures Valid() && err == None
    {
      err, done := None, false;
    }

    /** cancel: the first call stores `e` and closes `done`; later calls
        change nothing. */
    method Cancel(e: Error)
      requires Valid()
      modifies this
      ensures Valid() && done
      ensures err == Cancelled(old(err), e)
      ensures old(done) ==> err == old(err)
    {
      if !done {
        err := Some(e);
        done := true;
      }
    }

    /** Err: the stored error, nil before any cancel. */
    method Err() returns (r: Option<Error>)
      requires Valid()
      ensures r == err
      ensures r.None? <==> !done
    {
      r := err;
    }
  }
}
