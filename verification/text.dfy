/** The human-readable handler (text/handler.go): one block of text per
    event, written to the output in a single call.

    The renderings of the Go libraries are parameters, gathered in a
    `Printer`: `time.Time.AppendFormat` in a location, `%v` of an argument
    value and `%+v` of an error. */
module Text {
  import opened Events
  import opened Strings

  /** A `*time.Location`; `Local` is `time.Local`. */
  datatype Location = Local | Zone(name: string)

  datatype Printer = Printer(
    time: (Time, Location, string) -> string,
    value: Value -> string,
    error: ErrorValue -> string)

  const DefaultTimeFormat: string := "2006-01-02 15:04:05.000"

  /** The pooled buffer. */
  class Buffer {
    var b: string

    constructor ()
      ensures b == []
    {
      b := [];
    }

    /** `Write`, the sink of `fmt.Fprintf`. */
    method Write(data: string) returns (n: int)
      modifies this
      ensures b == old(b) + data && n == |data|
    {
      b := b + data;
      n := |data|;
    }
  }

  /** The line of one non-error Arg. */
  function ArgLine(a: Arg, p: Printer): string
  {
    "\t" + a.name + ": " + p.value(a.value) + "\n"
  }

  /** The line of one error. */
  function ErrorLine(err: ErrorValue, p: Printer): string
  {
    "\t\t- " + p.error(err) + "\n"
  }

  /** The lines of the Args that are not errors, in order. */
  function ArgLines(args: seq<Arg>, p: Printer): string
  {
    if args == [] then ""
    else
      var last := args[|args| - 1];
      ArgLines(args[..|args| - 1], p) + (if IsError(last.value) then "" else ArgLine(last, p))
  }

  /** The lines of the errors, in order. */
  function ErrorLines(args: seq<Arg>, p: Printer): string
  {
    if args == [] then ""
    else
      var last := args[|args| - 1];
      ErrorLines(args[..|args| - 1], p) + (if IsError(last.value) then ErrorLine(last.value.err, p) else "")
  }

  /** The time in the handler's location (Local when none is set),
      followed by " - ", when the handler has a time format. */
  function TimePart(timeFormat: string, location: Option<Location>, t: Time, p: Printer): string
  {
    if |timeFormat| == 0 then ""
    else p.time(t, if location.None? then Local else location.value, timeFormat) + " - "
  }

  function SourcePart(source: string): string
  {
    if |source| == 0 then "" else source + " - "
  }

  const ErrorsHeading: string := "\terrors:\n"

  lemma Assoc(a: string, b: string, c: string)
    ensures a + b + c == a + (b + c)
  {
  }

  /** The details written after the message when Args are enabled. */
  function Details(args: seq<Arg>, p: Printer): string
  {
    ArgLines(args, p) + (if Errors(args) != [] then ErrorsHeading + ErrorLines(args, p) else "")
  }

  class Handler {
    var output: Writer
    var prefix: string
    var timeFormat: string
    var timeLocation: Option<Location>
    var enableArgs: bool

    /** NewHandler. */
    constructor (prefix: string, output: Writer)
      ensures this.output == output && this.prefix == prefix
      ensures timeFormat == DefaultTimeFormat && timeLocation.None? && !enableArgs
    {
      this.output := output;
      this.prefix := prefix;
      timeFormat := DefaultTimeFormat;
      timeLocation := None;
      enableArgs := false;
    }

    /** The first line written for event `e`. */
    function Head(e: Event, p: Printer): string
      reads this
    {
      prefix + TimePart(timeFormat, timeLocation, e.time, p) + SourcePart(e.source) + e.message + "\n"
    }

    /** The text written for event `e`. */
    function Text(e: Event, p: Printer): string
      reads this
    {
      Head(e, p) + (if enableArgs then Details(e.args, p) else "")
    }

    /** HandleEvent: builds the text in the pooled buffer and writes it to
        the output with one call. */
    method HandleEvent(e: Event, buf: Buffer, p: Printer)
      modifies buf, output
      ensures output.writes == old(output.writes) + [Text(e, p)]
    {
      buf.b := buf.b[..0];
      WriteHead(e, buf, p);
      ghost var head := buf.b;
      assert head == Head(e, p);
      if enableArgs {
        WriteDetails(e.args, buf, p);
      } else {
        assert buf.b == head + "";
      }
      assert buf.b == Text(e, p);
      output.Write(buf.b);
    }

    /** The prefix, time, source and message of the event. */
    method WriteHead(e: Event, buf: Buffer, p: Printer)
      modifies buf
      ensures buf.b == old(buf.b) + Head(e, p)
    {
      buf.b := buf.b + prefix;

      if |timeFormat| != 0 {
        var loc := timeLocation;
        if loc.None? {
          loc := Some(Local);
        }
        buf.b := buf.b + p.time(e.time, loc.value, timeFormat);
        buf.b := buf.b + " - ";
      }

      if |e.source| != 0 {
        buf.b := buf.b + e.source;
        buf.b := buf.b + " - ";
      }

      buf.b := buf.b + e.message;
      buf.b := buf.b + ['\n'];
    }
  }

  /** The Args that are not errors, one line each, then the errors, if
      any. */
  method WriteDetails(args: seq<Arg>, buf: Buffer, p: Printer)
    modifies buf
    ensures buf.b == old(buf.b) + Details(args, p)
  {
    ghost var b0 := buf.b;
    var hasError := WriteArgLines(args, buf, p);
    ghost var lines := buf.b;
    if hasError {
      var _ := buf.Write(ErrorsHeading);
      WriteErrors(args, buf, p);
      Assoc(lines, ErrorsHeading, ErrorLines(args, p));
      DetailsAppend(b0, args, p, ErrorsHeading + ErrorLines(args, p));
    } else {
      DetailsAppend(b0, args, p, "");
      assert buf.b == lines + "";
    }
  }

  /** The details are the Arg lines followed by the error part. */
  lemma DetailsAppend(b0: string, args: seq<Arg>, p: Printer, tail: string)
    requires tail == if Errors(args) != [] then ErrorsHeading + ErrorLines(args, p) else ""
    ensures b0 + ArgLines(args, p) + tail == b0 + Details(args, p)
  {
  }

  /** The first pass over the Args: a line per Arg that is not an error;
      tells whether any Arg is an error. */
  method WriteArgLines(args: seq<Arg>, buf: Buffer, p: Printer) returns (hasError: bool)
    modifies buf
    ensures buf.b == old(buf.b) + ArgLines(args, p)
    ensures hasError <==> Errors(args) != []
  {
    hasError := false;
    for k := 0 to |args|
      invariant buf.b == old(buf.b) + ArgLines(args[..k], p)
      invariant hasError <==> Errors(args[..k]) != []
    {
      ArgStep(args, k, p);
      if IsError(args[k].value) {
        hasError := true;
        assert ArgLines(args[..k + 1], p) == ArgLines(args[..k], p) + "";
      } else {
        WriteArgLine(args[k], buf, p);
        Assoc(old(buf.b), ArgLines(args[..k], p), ArgLine(args[k], p));
      }
    }
    assert args[..|args|] == args;
  }

  /** `fmt.Fprintf(buf, "\t%s: %v\n", name, value)` */
  method WriteArgLine(a: Arg, buf: Buffer, p: Printer)
    modifies buf
    ensures buf.b == old(buf.b) + ArgLine(a, p)
  {
    buf.b := buf.b + ['\t'];
    buf.b := buf.b + a.name;
    buf.b := buf.b + [':', ' '];
    var _ := buf.Write(p.value(a.value) + "\n");
  }

  method WriteErrors(args: seq<Arg>, buf: Buffer, p: Printer)
    modifies buf
    ensures buf.b == old(buf.b) + ErrorLines(args, p)
  {
    for k := 0 to |args|
      invariant buf.b == old(buf.b) + ErrorLines(args[..k], p)
    {
      ErrorLineStep(args, k, p);
      if IsError(args[k].value) {
        var _ := buf.Write("\t\t- " + p.error(args[k].value.err) + "\n");
      }
    }
    assert args[..|args|] == args;
  }

  /** One more Arg adds its line when it is not an error. */
  lemma ArgStep(args: seq<Arg>, k: nat, p: Printer)
    requires k < |args|
    ensures ArgLines(args[..k + 1], p) ==
              ArgLines(args[..k], p) + (if IsError(args[k].value) then "" else ArgLine(args[k], p))
    ensures Errors(args[..k + 1]) != [] <==> Errors(args[..k]) != [] || IsError(args[k].value)
  {
    assert args[..k + 1][..k] == args[..k];
    assert args[..k + 1] == args[..k] + [args[k]];
    ErrorsConcat(args[..k], [args[k]]);
  }

  /** One more Arg adds its error line when it is an error. */
  lemma ErrorLineStep(args: seq<Arg>, k: nat, p: Printer)
    requires k < |args|
    ensures ErrorLines(args[..k + 1], p) ==
              ErrorLines(args[..k], p) + (if IsError(args[k].value) then ErrorLine(args[k].value.err, p) else "")
  {
    assert args[..k + 1][..k] == args[..k];
  }

  /** ArgLine and ErrorLine with the printer fixed. */
  function ArgLineOf(p: Printer): Arg -> string
  {
    (a: Arg) => ArgLine(a, p)
  }

  function ErrorLineOf(p: Printer): ErrorValue -> string
  {
    (err: ErrorValue) => ErrorLine(err, p)
  }

  /** Every Arg that is not an error gets one line, in the order of the
      Args. */
  lemma {:induction false} ArgLinesEach(args: seq<Arg>, p: Printer)
    ensures ArgLines(args, p) == Concat(Map(ArgLineOf(p), NonErrors(args)))
  {
    if args != [] {
      var init, last := args[..|args| - 1], args[|args| - 1];
      ArgLinesEach(init, p);
      SplitLast(args);
      ArgLinesSnoc(init, last, p);
    }
  }

  lemma ArgLinesSnoc(init: seq<Arg>, last: Arg, p: Printer)
    requires ArgLines(init, p) == Concat(Map(ArgLineOf(p), NonErrors(init)))
    ensures ArgLines(init + [last], p) == Concat(Map(ArgLineOf(p), NonErrors(init + [last])))
  {
    var f := ArgLineOf(p);
    assert (init + [last])[..|init|] == init;
    NonErrorsConcat(init, [last]);
    if IsError(last.value) {
      assert NonErrors(init + [last]) == NonErrors(init);
    } else {
      assert NonErrors(init + [last]) == NonErrors(init) + [last];
      MapSnoc(f, NonErrors(init), last);
      ConcatSnoc(Map(f, NonErrors(init)), ArgLine(last, p));
    }
  }

  /** Every error gets one line, in the order of the Args. */
  lemma {:induction false} ErrorLinesEach(args: seq<Arg>, p: Printer)
    ensures ErrorLines(args, p) == Concat(Map(ErrorLineOf(p), Errors(args)))
  {
    var f := ErrorLineOf(p);
    if args != [] {
      var init, last := args[..|args| - 1], args[|args| - 1];
      ErrorLinesEach(init, p);
      SplitLast(args);
      ErrorsConcat(init, [last]);
      if IsError(last.value) {
        assert Errors(args) == Errors(init) + [last.value.err];
        MapSnoc(f, Errors(init), last.value.err);
        ConcatSnoc(Map(f, Errors(init)), ErrorLine(last.value.err, p));
      } else {
        assert Errors(args) == Errors(init);
      }
    }
  }

  /** Names and renderings that hold no line break. */
  predicate SingleLines(args: seq<Arg>, p: Printer)
  {
    forall k :: 0 <= k < |args| ==>
      '\n' !in args[k].name && '\n' !in p.value(args[k].value) &&
      (IsError(args[k].value) ==> '\n' !in p.error(args[k].value.err))
  }

  /** With EnableArgs, the text holds one line per Arg that is not an
      error, then, only when some Arg is an error, the "errors:" line and
      one line per error. */
  lemma DetailLines(args: seq<Arg>, p: Printer)
    requires SingleLines(args, p)
    ensures Count(Details(args, p), '\n') ==
              |NonErrors(args)| + (if HasError(args) then 1 + |Errors(args)| else 0)
  {
    var lines := ArgLines(args, p);
    ArgLinesCount(args, p);
    PartitionSizes(args);
    if Errors(args) != [] {
      var errs := ErrorLines(args, p);
      ErrorLinesCount(args, p);
      assert ErrorsHeading == "\terrors:" + "\n";
      LineCount("\terrors:");
      CountConcat(ErrorsHeading, errs, '\n');
      CountConcat(lines, ErrorsHeading + errs, '\n');
      assert Details(args, p) == lines + (ErrorsHeading + errs);
    } else {
      assert Details(args, p) == lines + "" == lines;
    }
  }

  lemma ArgLineCount(a: Arg, p: Printer)
    requires '\n' !in a.name && '\n' !in p.value(a.value)
    ensures Count(ArgLine(a, p), '\n') == 1
  {
    var text := "\t" + a.name + ": " + p.value(a.value);
    assert ArgLine(a, p) == text + "\n";
    LineCount(text);
  }

  lemma ErrorLineCount(err: ErrorValue, p: Printer)
    requires '\n' !in p.error(err)
    ensures Count(ErrorLine(err, p), '\n') == 1
  {
    var text := "\t\t- " + p.error(err);
    assert ErrorLine(err, p) == text + "\n";
    LineCount(text);
  }

  lemma {:induction false} ArgLinesCount(args: seq<Arg>, p: Printer)
    requires SingleLines(args, p)
    ensures Count(ArgLines(args, p), '\n') == |NonErrors(args)|
  {
    if args != [] {
      var init, last := args[..|args| - 1], args[|args| - 1];
      assert SingleLines(init, p) by {
        forall k | 0 <= k < |init|
          ensures init[k] == args[k]
        {
        }
      }
      ArgLinesCount(init, p);
      SplitLast(args);
      NonErrorsConcat(init, [last]);
      if IsError(last.value) {
        assert NonErrors([last]) == [];
        assert ArgLines(args, p) == ArgLines(init, p) + "" == ArgLines(init, p);
      } else {
        assert NonErrors([last]) == [last];
        ArgLineCount(last, p);
        CountConcat(ArgLines(init, p), ArgLine(last, p), '\n');
      }
    }
  }

  lemma {:induction false} ErrorLinesCount(args: seq<Arg>, p: Printer)
    requires SingleLines(args, p)
    ensures Count(ErrorLines(args, p), '\n') == |Errors(args)|
  {
    if args != [] {
      var init, last := args[..|args| - 1], args[|args| - 1];
      assert SingleLines(init, p) by {
        forall k | 0 <= k < |init|
          ensures init[k] == args[k]
        {
        }
      }
      ErrorLinesCount(init, p);
      SplitLast(args);
      ErrorsConcat(init, [last]);
      if IsError(last.value) {
        assert Errors([last]) == [last.value.err];
        ErrorLineCount(last.value.err, p);
        CountConcat(ErrorLines(init, p), ErrorLine(last.value.err, p), '\n');
      } else {
        assert Errors([last]) == [];
        assert ErrorLines(args, p) == ErrorLines(init, p) + "" == ErrorLines(init, p);
      }
    }
  }

  /** Without EnableArgs nothing follows the message line; with it, the
      text still ends with a line break. */
  lemma TextEnds(h: Handler, e: Event, p: Printer)
    ensures HasPrefix(h.Text(e, p), h.prefix)
    ensures !h.enableArgs ==> h.Text(e, p) == h.Head(e, p)
    ensures h.Text(e, p)[|h.Text(e, p)| - 1] == '\n'
  {
    var t := h.Text(e, p);
    assert t[..|h.prefix|] == h.prefix;
    if h.enableArgs {
      DetailsEnd(e.args, p);
    } else {
      assert t == h.Head(e, p) + "";
    }
  }

  /** The details are empty or end with a line break. */
  lemma DetailsEnd(args: seq<Arg>, p: Printer)
    ensures Details(args, p) == [] || Details(args, p)[|Details(args, p)| - 1] == '\n'
  {
    ErrorLinesEnd(args, p);
    ArgLinesEnd(args, p);
  }

  lemma ArgLinesEnd(args: seq<Arg>, p: Printer)
    ensures ArgLines(args, p) == [] || ArgLines(args, p)[|ArgLines(args, p)| - 1] == '\n'
    decreases |args|
  {
    if args != [] {
      ArgLinesEnd(args[..|args| - 1], p);
    }
  }

  lemma ErrorLinesEnd(args: seq<Arg>, p: Printer)
    ensures ErrorLines(args, p) == [] || ErrorLines(args, p)[|ErrorLines(args, p)| - 1] == '\n'
    decreases |args|
  {
    if args != [] {
      ErrorLinesEnd(args[..|args| - 1], p);
    }
  }

  /** The handler writes the time only when it has a time format, and in
      the Local location when it has none set; the source only when the
      event has one. */
  lemma HeadParts(h: Handler, e: Event, p: Printer)
    ensures |h.timeFormat| == 0 && |e.source| == 0 ==> h.Head(e, p) == h.prefix + e.message + "\n"
    ensures |h.timeFormat| != 0 && h.timeLocation.None? ==>
              HasPrefix(h.Head(e, p), h.prefix + p.time(e.time, Local, h.timeFormat) + " - ")
  {
    if |h.timeFormat| != 0 && h.timeLocation.None? {
      var pre := h.prefix + p.time(e.time, Local, h.timeFormat) + " - ";
      assert h.Head(e, p) == pre + (SourcePart(e.source) + e.message + "\n");
      assert h.Head(e, p)[..|pre|] == pre;
    }
  }
}
