/** The Logger of logger.go: it turns a `Log`/`Debug` call into one event
    and hands it to its handler.

    The run-time facts the logger looks up are parameters here: `stack`
    is the goroutine's call stack as `runtime.Callers` walks it, frame by
    frame (see `Caller`), `render` stands for
    `fmt.Fprintf` of the rewritten format, and `now` for `time.Now()`. */
module Logging {
  import opened Events
  import opened Strings
  import opened Format
  import opened FormatFacts
  import opened Handlers
  import opened Source

  /** The pooled scratch record of a `log` call (`logState`): the event
      under construction and the three byte buffers. */
  class LogState {
    var event: Event
    var fmt: string
    var msg: string
    var src: string

    /** A record as the pool hands it out: all buffers are empty. */
    predicate Idle()
      reads this
    {
      event.message == "" && event.source == "" && event.args == [] &&
      fmt == [] && msg == [] && src == []
    }

    /** The pool's `New`. */
    constructor ()
      ensures Idle()
    {
      event := Event("", "", ZeroTime, false, []);
      fmt, msg, src := [], [], [];
    }

    /** Fills the source buffer with the caller's `file:line`, when the
        source is enabled and a caller was found. */
    method AppendSource(enabled: bool, frame: Option<Frame>)
      requires src == []
      modifies this
      ensures src == SourceOf(enabled, frame)
      ensures event == old(event) && fmt == old(fmt) && msg == old(msg)
    {
      if enabled && frame.Some? {
        var file := TrimGOPATH(frame.value.funcName, frame.value.file);
        src := src + file;
        src := src + [':'];
        src := src + Decimal(frame.value.line);
        assert src == file + ":" + Decimal(frame.value.line);
      }
    }

    /** Appends the event's Args: the logger's, the template's (through
        appendFormat, which also appends the rewritten format), and the
        trailing list. */
    method AppendArgs(loggerArgs: seq<Arg>, format: string, positional: seq<Value>, trailing: seq<Arg>)
      modifies this
      ensures event.args == old(event.args) + loggerArgs + Rewrite(format, positional).args + trailing
      ensures event.message == old(event.message) && event.source == old(event.source)
      ensures fmt == old(fmt) + Rewrite(format, positional).format
      ensures msg == old(msg) && src == old(src)
    {
      event := event.(args := event.args + loggerArgs);
      var f, ea := AppendFormat(fmt, event.args, format, positional);
      fmt := f;
      event := event.(args := ea + trailing);
    }

    /** The middle of `log`: detaches a trailing Args list, collects the
        event's Args and renders the message from the rewritten format. */
    method Compose(loggerArgs: seq<Arg>, format: string, values: seq<Value>,
                   render: (string, seq<Value>) -> string)
      requires event.args == [] && fmt == [] && msg == []
      modifies this
      ensures event.args == EventArgs(loggerArgs, format, values)
      ensures msg == render(Rewrite(format, Positional(values)).format, Positional(values))
      ensures fmt == Rewrite(format, Positional(values)).format
      ensures src == old(src) && event.message == old(event.message) && event.source == old(event.source)
    {
      var trailing: seq<Arg> := [];
      var positional := values;
      var n := |values|;
      if n != 0 && values[n - 1].ArgList? {
        trailing, positional := values[n - 1].args, values[..n - 1];
      }
      assert positional == Positional(values) && trailing == SplitTrailing(values).1;

      ghost var rewritten := Rewrite(format, positional);
      AppendArgs(loggerArgs, format, positional, trailing);
      assert event.args == loggerArgs + rewritten.args + trailing;
      assert fmt == rewritten.format;
      var _ := Write(render(fmt, positional));
    }

    /** Truncates every buffer once the handler has returned. */
    method Release()
      modifies this
      ensures Idle()
      ensures event.debug == old(event.debug) && event.time == old(event.time)
    {
      event := event.(message := "", source := "", args := []);
      fmt := [];
      msg := [];
      src := [];
    }

    /** `Write`: the sink of the message rendering. */
    method Write(b: string) returns (n: int)
      modifies this
      ensures msg == old(msg) + b && n == |b|
      ensures event == old(event) && fmt == old(fmt) && src == old(src)
    {
      msg := msg + b;
      n := |b|;
    }
  }

  /** The split of a call's variadic arguments: when the last one is an
      `Args` list it is detached from the positional values. */
  function SplitTrailing(args: seq<Value>): (r: (seq<Value>, seq<Arg>))
    ensures |r.0| <= |args| && r.0 == args[..|r.0|]
    ensures |r.0| < |args| <==> args != [] && args[|args| - 1].ArgList?
    ensures |r.0| < |args| ==> |r.0| == |args| - 1 && args[|r.0|] == ArgList(r.1)
    ensures |r.0| == |args| ==> r.1 == []
  {
    var n := |args|;
    if n != 0 && args[n - 1].ArgList? then (args[..n - 1], args[n - 1].args) else (args, [])
  }

  /** The values the template's verbs are matched with. */
  function Positional(args: seq<Value>): seq<Value>
  {
    SplitTrailing(args).0
  }

  /** The Args of the event a logger with `loggerArgs` emits for
      `Log(format, args...)`: its own Args, then one per verb of the
      template, then the detached trailing list. */
  function EventArgs(loggerArgs: seq<Arg>, format: string, args: seq<Value>): seq<Arg>
  {
    loggerArgs + Rewrite(format, Positional(args)).args + SplitTrailing(args).1
  }

  /** The frame `runtime.Callers(skip, ...)` finds on `stack`, followed by
      the frame lookup of `SourceForPC`: none when the stack is not that
      deep. */
  function Caller(stack: seq<Frame>, skip: int): Option<Frame>
  {
    if 0 <= skip < |stack| then Some(stack[skip]) else None
  }

  /** The event's Source: the `file:line` text of the caller's frame, with
      the file trimmed to its GOPATH-relative form, or empty when the
      source is disabled or no caller was found. */
  function SourceOf(enabled: bool, frame: Option<Frame>): string
  {
    if !enabled || frame.None? then ""
    else Trim(frame.value.funcName, frame.value.file) + ":" + Decimal(frame.value.line)
  }

  /** `e` is the event a logger with fields `l` emits for `format` and
      `values` when called `depth` frames below its caller. */
  ghost predicate Emitted(e: Event, l: LoggerCopy, depth: int, format: string, values: seq<Value>,
                          stack: seq<Frame>, render: (string, seq<Value>) -> string, now: Time)
  {
    var positional := Positional(values);
    e.args == EventArgs(l.args, format, values) &&
    e.message == render(Rewrite(format, positional).format, positional) &&
    e.debug == l.enableDebug && e.time == now &&
    e.source == SourceOf(l.enableSource, Caller(stack, l.callDepth + depth + 2))
  }

  /** The fields of a logger, as `l := *logger` copies them. */
  datatype LoggerCopy = LoggerCopy(handler: Handler, args: seq<Arg>, callDepth: int, enableSource: bool, enableDebug: bool)

  function Copy(l: Logger): LoggerCopy
    reads l
  {
    LoggerCopy(l.handler, l.args, l.callDepth, l.enableSource, l.enableDebug)
  }

  class Logger {
    var handler: Handler
    var args: seq<Arg>
    var callDepth: int
    var enableSource: bool
    var enableDebug: bool

    /** NewLogger. */
    constructor (h: Handler)
      ensures handler == h && args == [] && callDepth == 0
      ensures enableSource && enableDebug
    {
      handler := h;
      args := [];
      callDepth := 0;
      enableSource := true;
      enableDebug := true;
    }

    /** `log`: builds the event in the pooled record `s`, hands it to the
        handler, and leaves `s` idle again. */
    method LogAt(depth: int, format: string, values: seq<Value>, s: LogState, trace: Trace,
                 stack: seq<Frame>, render: (string, seq<Value>) -> string, now: Time)
      returns (e: Event)
      requires s.Idle()
      modifies s, trace
      ensures s.Idle()
      ensures e.args == EventArgs(args, format, values)
      ensures e.message == render(Rewrite(format, Positional(values)).format, Positional(values))
      ensures e.debug == enableDebug && e.time == now
      ensures e.source == SourceOf(enableSource, Caller(stack, callDepth + depth + 2))
      ensures trace.calls == old(trace.calls) + Effect(handler, e)
    {
      var frame := Caller(stack, callDepth + depth + 2);
      if enableSource {
        // runtime.Callers and SourceForPC
        s.AppendSource(true, frame);
      }
      ghost var source := s.src;
      assert source == SourceOf(enableSource, frame);

      s.Compose(args, format, values, render);

      s.event := s.event.(message := s.msg, source := s.src, debug := enableDebug, time := now);
      trace.HandleEvent(handler, s.event);
      e := s.event;
      assert e.source == source;
      assert frame == Caller(stack, callDepth + depth + 2);
      s.Release();
    }

    /** `Log`. */
    method Log(format: string, values: seq<Value>, s: LogState, trace: Trace,
               stack: seq<Frame>, render: (string, seq<Value>) -> string, now: Time)
      returns (e: Event)
      requires s.Idle()
      modifies s, trace
      ensures s.Idle()
      ensures Emitted(e, Copy(this), 1, format, values, stack, render, now)
      ensures trace.calls == old(trace.calls) + Effect(handler, e)
    {
      e := LogAt(1, format, values, s, trace, stack, render, now);
    }

    /** `debug`: `log` one frame deeper, or nothing at all when debugging
        is disabled. */
    method DebugAt(depth: int, format: string, values: seq<Value>, s: LogState, trace: Trace,
                   stack: seq<Frame>, render: (string, seq<Value>) -> string, now: Time)
      returns (e: Option<Event>)
      requires s.Idle()
      modifies s, trace
      ensures s.Idle()
      ensures e.Some? <==> enableDebug
      ensures e.None? ==> trace.calls == old(trace.calls) && unchanged(s)
      ensures e.Some? ==> Emitted(e.value, Copy(this), depth + 1, format, values, stack, render, now) &&
                          e.value.debug &&
                          trace.calls == old(trace.calls) + Effect(handler, e.value)
    {
      e := None;
      if enableDebug {
        var ev := LogAt(depth + 1, format, values, s, trace, stack, render, now);
        assert Emitted(ev, Copy(this), depth + 1, format, values, stack, render, now);
        e := Some(ev);
      }
    }

    /** `Debug`. */
    method Debug(format: string, values: seq<Value>, s: LogState, trace: Trace,
                 stack: seq<Frame>, render: (string, seq<Value>) -> string, now: Time)
      returns (e: Option<Event>)
      requires s.Idle()
      modifies s, trace
      ensures s.Idle()
      ensures e.Some? <==> enableDebug
      ensures e.None? ==> trace.calls == old(trace.calls) && unchanged(s)
      ensures e.Some? ==> Emitted(e.value, Copy(this), 2, format, values, stack, render, now) &&
                          e.value.debug &&
                          trace.calls == old(trace.calls) + Effect(handler, e.value)
    {
      e := DebugAt(1, format, values, s, trace, stack, render, now);
    }

    /** `With`: a new logger with this logger's Args followed by `extra`,
        the same handler and switches, and the default call depth. */
    method With(extra: seq<Arg>) returns (r: Logger)
      ensures fresh(r)
      ensures r.args == args + extra
      ensures r.handler == handler && r.enableSource == enableSource && r.enableDebug == enableDebug
      ensures r.callDepth == 0
    {
      var newArgs: seq<Arg> := [];
      if |args| + |extra| != 0 {
        newArgs := newArgs + args;
        newArgs := newArgs + extra;
      }
      r := new Logger(handler);
      r.args := newArgs;
      r.enableSource := enableSource;
      r.enableDebug := enableDebug;
    }
  }

  /** The layout of an event's Args: the logger's own, then exactly one
      per verb of the template, taking the positional values left to right
      and `Missing` past the last one, then the detached trailing list. */
  lemma EventArgsLayout(loggerArgs: seq<Arg>, format: string, values: seq<Value>)
    ensures var ea := EventArgs(loggerArgs, format, values);
            var pos := Positional(values);
            var verbs := VerbCount(Lex(format));
            var tail := SplitTrailing(values).1;
            |ea| == |loggerArgs| + verbs + |tail| &&
            ea[..|loggerArgs|] == loggerArgs &&
            ea[|loggerArgs| + verbs..] == tail &&
            (forall k :: 0 <= k < verbs ==>
               ea[|loggerArgs| + k] == Arg(VerbNames(Lex(format))[k], if k < |pos| then pos[k] else Missing))
  {
    var pos := Positional(values);
    RewriteArgs(format, pos);
  }

  /** A trailing Args list is never matched with a verb: with more verbs
      than positional values, the verbs past them get `Missing`. */
  lemma TrailingNotPositional(loggerArgs: seq<Arg>, format: string, values: seq<Value>)
    requires values != [] && values[|values| - 1].ArgList?
    requires VerbCount(Lex(format)) >= |values|
    ensures var ea := EventArgs(loggerArgs, format, values);
            |loggerArgs| + |values| - 1 < |ea| && ea[|loggerArgs| + |values| - 1].value == Missing
  {
    EventArgsLayout(loggerArgs, format, values);
    var ea := EventArgs(loggerArgs, format, values);
    var k := |values| - 1;
    assert |Positional(values)| == k;
    assert ea[|loggerArgs| + k] == Arg(VerbNames(Lex(format))[k], Missing);
  }

  /** The example of logger.go: `Log("Hello %:name:s!", "Luke",
      Args{{"from", "Han"}})` on a logger without Args gives the Args
      `{"name", "Luke"}, {"from", "Han"}` and renders "Hello %s!". */
  lemma HelloExample()
    ensures var values := [Str("Luke"), ArgList([Arg("from", Str("Han"))])];
            EventArgs([], "Hello %:name:s!", values) == [Arg("name", Str("Luke")), Arg("from", Str("Han"))] &&
            Rewrite("Hello %:name:s!", Positional(values)).format == "Hello %s!"
  {
    var values := [Str("Luke"), ArgList([Arg("from", Str("Han"))])];
    assert values[..1] == [Str("Luke")];
    assert SplitTrailing(values) == ([Str("Luke")], [Arg("from", Str("Han"))]);
    RewriteHello(Str("Luke"));
  }

  /** The With example of logger_test.go: a child of a child logs "child2"
      with a trailing list; the event carries both inherited Args, then the
      trailing one. */
  lemma WithExample()
    ensures var inherited := [Arg("hello", Str("world"))] + [Arg("question", Str("how are you?"))];
            EventArgs(inherited, "child2", [ArgList([Arg("answer", Int(42))])]) ==
              [Arg("hello", Str("world")), Arg("question", Str("how are you?")), Arg("answer", Int(42))]
  {
    RewriteNoPercent("child2", []);
  }
}
