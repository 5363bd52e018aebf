/** The ecslogs handler (ecslogs/handler.go): one JSON object per event,
    with the keys `level`, `time`, `info`, `data` and `message`.

    The encoders of the Go libraries are parameters, gathered in a `Codec`:
    `encoding/json`'s encoding of a string, of an argument value and of a
    time, and `fmt`'s `%q` quoting of an argument name. */
module Ecslogs {
  import opened Events
  import opened Strings
  import opened Source

  datatype Codec = Codec(
    quote: string -> string,
    goQuote: string -> string,
    value: Value -> string,
    time: Time -> string)

  /** `buffer`: the append-only byte buffer the encoder writes to. */
  class Buffer {
    var b: string

    constructor ()
      ensures b == []
    {
      b := [];
    }

    method Reset()
      modifies this
      ensures b == []
    {
      b := b[..0];
    }

    method Write(data: string) returns (n: int)
      modifies this
      ensures b == old(b) + data && n == |data|
    {
      b := b + data;
      n := |data|;
    }

    method WriteByte(c: char)
      modifies this
      ensures b == old(b) + [c]
    {
      b := b + [c];
    }
  }

  // ---------------------------------------------------------------------
  // Errors.

  /** One entry of `info.errors`; an empty `stack` is omitted. */
  datatype EventError = EventError(typ: string, error: string, errno: int, stack: seq<Frame>)

  /** makeEventError. */
  function MakeEventError(err: ErrorValue): (r: EventError)
    ensures r.typ == err.cause.TypeName() && r.error == err.message
    ensures r.errno != 0 ==> err.cause.Errno?
    ensures err.cause.Errno? ==> r.errno == err.cause.code
    ensures r.stack != [] ==> err.stack.Some?
  {
    var errno := if err.cause.Errno? then err.cause.code else 0;
    var stack := if err.stack.Some? then err.stack.value else [];
    EventError(err.cause.TypeName(), err.message, errno, stack)
  }

  /** The `info.errors` of an event: one entry per error-valued Arg. */
  function ErrorEntries(args: seq<Arg>): (r: seq<EventError>)
  {
    Map(MakeEventError, Errors(args))
  }

  /** funcName: the function name without its package path. */
  function FuncName(name: string): (r: string)
    ensures IsSuffix(r, name) && '/' !in r
    ensures r != name ==> name[|name| - |r| - 1] == '/'
  {
    LastIndexByteLast(name, '/');
    var i := LastIndexByte(name, '/');
    if i >= 0 then name[i + 1..] else name
  }

  /** One frame of a stack trace: `"file:line:function"`, with the file
      trimmed as `SourceForPC` does. */
  function FrameJSON(f: Frame): string
  {
    "\"" + Trim(f.funcName, f.file) + ":" + Decimal(f.line) + ":" + FuncName(f.funcName) + "\""
  }

  function FrameTexts(st: seq<Frame>): (r: seq<string>)
  {
    Map(FrameJSON, st)
  }

  /** stackTrace.MarshalJSON as a value. */
  function StackJSON(st: seq<Frame>): string
  {
    "[" + Join(FrameTexts(st), ",") + "]"
  }

  /** stackTrace.MarshalJSON. */
  method MarshalStack(st: seq<Frame>) returns (out: string)
    ensures out == StackJSON(st)
  {
    if |st| == 0 {
      return "[]";
    }
    out := "[";
    for i := 0 to |st|
      invariant out == "[" + Join(FrameTexts(st[..i]), ",")
    {
      ghost var before := out;
      if i != 0 {
        out := out + [','];
      }
      var text := FrameJSON(st[i]);
      out := out + text;
      StackStep(st, i, before, text);
    }
    assert st[..|st|] == st;
    out := out + [']'];
  }

  lemma StackStep(st: seq<Frame>, i: nat, out: string, text: string)
    requires i < |st| && text == FrameJSON(st[i])
    requires out == "[" + Join(FrameTexts(st[..i]), ",")
    ensures (if i != 0 then out + [','] else out) + text == "[" + Join(FrameTexts(st[..i + 1]), ",")
  {
    FrameTextsSnoc(st, i);
    JoinStep("[", FrameTexts(st[..i]), text, ",");
  }

  lemma FrameTextsSnoc(st: seq<Frame>, i: nat)
    requires i < |st|
    ensures FrameTexts(st[..i + 1]) == FrameTexts(st[..i]) + [FrameJSON(st[i])]
  {
    assert st[..i + 1] == st[..i] + [st[i]];
    MapSnoc(FrameJSON, st[..i], st[i]);
  }

  /** Appending one part to a joined list after an opening text. */
  lemma JoinStep(open: string, parts: seq<string>, p: string, sep: string)
    ensures (if parts != [] then open + Join(parts, sep) + sep else open + Join(parts, sep)) + p ==
            open + Join(parts + [p], sep)
  {
    JoinSnoc(parts, p, sep);
  }

  function ErrorJSON(e: EventError, c: Codec): string
  {
    "{" + Join((if e.typ != "" then ["\"type\":" + c.quote(e.typ)] else []) +
               (if e.error != "" then ["\"error\":" + c.quote(e.error)] else []) +
               (if e.errno != 0 then ["\"errno\":" + IntString(e.errno)] else []) +
               (if e.stack != [] then ["\"stack\":" + StackJSON(e.stack)] else []), ",") + "}"
  }

  function ErrorsJSON(errs: seq<EventError>, c: Codec): string
  {
    "[" + Join(seq(|errs|, k requires 0 <= k < |errs| => ErrorJSON(errs[k], c)), ",") + "]"
  }

  // ---------------------------------------------------------------------
  // The event object.

  /** `eventInfo`; empty fields are omitted from its encoding. */
  datatype EventInfo = EventInfo(program: string, source: string, pid: int, errors: seq<EventError>)

  /** The keys and encoded values of the fields of `info` that are
      present. */
  function InfoFields(info: EventInfo, c: Codec): seq<(string, string)>
  {
    (if info.program != "" then [("program", c.quote(info.program))] else []) +
    (if info.source != "" then [("source", c.quote(info.source))] else []) +
    (if info.pid != 0 then [("pid", IntString(info.pid))] else []) +
    (if info.errors != [] then [("errors", ErrorsJSON(info.errors, c))] else [])
  }

  function Member(kv: (string, string)): string
  {
    "\"" + kv.0 + "\":" + kv.1
  }

  function Object(fields: seq<(string, string)>): string
  {
    "{" + Join(seq(|fields|, k requires 0 <= k < |fields| => Member(fields[k])), ",") + "}"
  }

  /** One member of `data`: the Go-quoted name, then the value. */
  function Pair(a: Arg, c: Codec): string
  {
    c.goQuote(a.name) + ":" + c.value(a.value)
  }

  /** Pair with the codec fixed. */
  function PairOf(c: Codec): Arg -> string
  {
    (a: Arg) => Pair(a, c)
  }

  function Pairs(args: seq<Arg>, c: Codec): (r: seq<string>)
  {
    Map(PairOf(c), args)
  }

  /** eventData.MarshalJSON as a value: the non-error Args, in order. */
  function DataJSON(args: seq<Arg>, c: Codec): string
  {
    "{" + Join(Pairs(NonErrors(args), c), ",") + "}"
  }

  /** The level of an event. */
  function Level(e: Event): string
  {
    if Errors(e.args) != [] then "ERROR" else if e.debug then "DEBUG" else "INFO"
  }

  /** The line written for event `e` by a handler for `program` and
      `pid`: the event object, then the newline `json.Encoder` adds. */
  function Line(program: string, pid: int, e: Event, c: Codec): string
  {
    var info := EventInfo(program, e.source, pid, ErrorEntries(e.args));
    Object([("level", c.quote(Level(e))), ("time", c.time(e.time)), ("info", Object(InfoFields(info, c))),
            ("data", DataJSON(e.args, c)), ("message", c.quote(e.message))]) + "\n"
  }

  // ---------------------------------------------------------------------
  // The data object.

  /** eventData.next: the first index at or after `i` whose value is not
      an error. */
  method NextData(args: seq<Arg>, i: nat) returns (j: nat)
    requires i <= |args|
    ensures i <= j <= |args|
    ensures forall k :: i <= k < j ==> IsError(args[k].value)
    ensures j < |args| ==> !IsError(args[j].value)
  {
    j := i;
    while j < |args|
      invariant i <= j <= |args|
      invariant forall k :: i <= k < j ==> IsError(args[k].value)
    {
      if !IsError(args[j].value) {
        break;
      }
      j := j + 1;
    }
  }

  /** eventData.MarshalJSON. */
  method MarshalData(args: seq<Arg>, c: Codec) returns (out: string)
    ensures out == DataJSON(args, c)
  {
    if |args| == 0 {
      return "{}";
    }
    out := "{";
    var n := 0;
    var i := NextData(args, 0);
    SkipErrors(args, 0, i);
    while i < |args|
      invariant i <= |args|
      invariant i < |args| ==> !IsError(args[i].value)
      invariant n == |NonErrors(args[..i])|
      invariant out == "{" + Join(Pairs(NonErrors(args[..i]), c), ",")
      decreases |args| - i
    {
      ghost var before := out;
      out := AppendMember(out, n, args[i], c);
      DataStep(args, i, before, out, c);
      KeepData(args, i);
      var j := NextData(args, i + 1);
      SkipErrors(args, i + 1, j);
      i := j;
      n := n + 1;
    }
    assert args[..|args|] == args;
    out := out + ['}'];
  }

  /** The body of the MarshalJSON loop: a comma unless this is the first
      member, the quoted name, a colon, and the encoded value without the
      newline `json.Encoder` ends it with. */
  method AppendMember(b: string, n: int, a: Arg, c: Codec) returns (out: string)
    ensures out == (if n != 0 then b + [','] else b) + Pair(a, c)
  {
    out := b;
    if n != 0 {
      out := out + [','];
    }
    ghost var head := out;
    out := out + c.goQuote(a.name) + [':'];
    out := out + c.value(a.value) + "\n";
    out := out[..|out| - 1];
    DropNewline(head + c.goQuote(a.name) + [':'], c.value(a.value));
  }

  lemma DropNewline(x: string, v: string)
    ensures (x + v + "\n")[..|x + v + "\n"| - 1] == x + v
  {
  }

  /** Writing one more non-error Arg extends the data by its member. */
  lemma DataStep(args: seq<Arg>, i: nat, before: string, out: string, c: Codec)
    requires i < |args| && !IsError(args[i].value)
    requires before == "{" + Join(Pairs(NonErrors(args[..i]), c), ",")
    requires out == (if |NonErrors(args[..i])| != 0 then before + [','] else before) + Pair(args[i], c)
    ensures out == "{" + Join(Pairs(NonErrors(args[..i + 1]), c), ",")
  {
    KeepData(args, i);
    PairsSnoc(NonErrors(args[..i]), args[i], c);
    JoinStep("{", Pairs(NonErrors(args[..i]), c), Pair(args[i], c), ",");
  }

  /** Skipping error-valued Args adds nothing to the data. */
  lemma SkipErrors(args: seq<Arg>, i: nat, j: nat)
    requires i <= j <= |args|
    requires forall k :: i <= k < j ==> IsError(args[k].value)
    ensures NonErrors(args[..j]) == NonErrors(args[..i])
  {
    assert args[..j] == args[..i] + args[i..j];
    NonErrorsConcat(args[..i], args[i..j]);
    NoNonErrors(args[i..j]);
  }

  lemma {:induction false} NoNonErrors(args: seq<Arg>)
    requires forall k :: 0 <= k < |args| ==> IsError(args[k].value)
    ensures NonErrors(args) == []
  {
    if args != [] {
      NoNonErrors(args[1..]);
    }
  }

  /** A non-error Arg is added to the data. */
  lemma KeepData(args: seq<Arg>, i: nat)
    requires i < |args| && !IsError(args[i].value)
    ensures NonErrors(args[..i + 1]) == NonErrors(args[..i]) + [args[i]]
  {
    assert args[..i + 1] == args[..i] + [args[i]];
    NonErrorsConcat(args[..i], [args[i]]);
  }

  lemma PairsSnoc(args: seq<Arg>, a: Arg, c: Codec)
    ensures Pairs(args + [a], c) == Pairs(args, c) + [Pair(a, c)]
  {
    MapSnoc(PairOf(c), args, a);
  }

  // ---------------------------------------------------------------------
  // The handler.

  /** The pooled `formatter`: the fields of the event object and the
      output buffer. */
  class Formatter {
    var level: string
    var time: Time
    var info: EventInfo
    var args: seq<Arg>
    var message: string
    var buffer: Buffer

    /** A formatter as the pool hands it out: no source, no errors. */
    predicate Idle()
      reads this
    {
      info.source == "" && info.errors == []
    }

    /** The pool's `New`. */
    constructor ()
      ensures Idle() && fresh(buffer)
    {
      level := "";
      time := ZeroTime;
      info := EventInfo("", "", 0, []);
      args := [];
      message := "";
      buffer := new Buffer();
    }
  }

  class Handler {
    var output: Writer
    var program: string
    var pid: int

    /** NewHandler. */
    constructor (out: Writer)
      ensures output == out && program == "" && pid == 0
    {
      output := out;
      program := "";
      pid := 0;
    }

    /** HandleEvent: encodes `e` with the pooled formatter `f` and writes
        the line with a single call to the output. */
    method HandleEvent(e: Event, f: Formatter, c: Codec)
      requires f.Idle()
      modifies f, f.buffer, output
      ensures f.Idle()
      ensures output.writes == old(output.writes) + [Line(program, pid, e, c)]
    {
      f.buffer.Reset();

      f.level := "INFO";
      f.time := e.time;
      f.message := e.message;
      f.args := e.args;
      f.info := f.info.(source := e.source, program := program, pid := pid);

      if e.debug {
        f.level := "DEBUG";
      }

      for k := 0 to |e.args|
        invariant f.info == EventInfo(program, e.source, pid, ErrorEntries(e.args[..k]))
        invariant f.level == Level(e.(args := e.args[..k]))
        invariant f.buffer == old(f.buffer) && f.buffer.b == []
        invariant output.writes == old(output.writes)
        invariant f.time == e.time && f.message == e.message && f.args == e.args
      {
        ErrorStep(e.args, k);
        if IsError(e.args[k].value) {
          f.level := "ERROR";
          f.info := f.info.(errors := f.info.errors + [MakeEventError(e.args[k].value.err)]);
        }
      }
      assert e.args[..|e.args|] == e.args;
      assert f.level == Level(e);
      assert f.info == EventInfo(program, e.source, pid, ErrorEntries(e.args));

      var data := MarshalData(f.args, c);
      // f.encoder.Encode(f.value)
      var fields := [("level", c.quote(f.level)), ("time", c.time(f.time)), ("info", Object(InfoFields(f.info, c))),
                     ("data", data), ("message", c.quote(f.message))];
      var _ := f.buffer.Write(Object(fields) + "\n");
      assert f.buffer.b == Line(program, pid, e, c);

      output.Write(f.buffer.b);

      f.info := f.info.(source := "", errors := f.info.errors[..0]);
    }
  }

  /** One more Arg adds an error entry exactly when its value is an
      error. */
  lemma ErrorStep(args: seq<Arg>, k: nat)
    requires k < |args|
    ensures Errors(args[..k + 1]) ==
              Errors(args[..k]) + (if IsError(args[k].value) then [args[k].value.err] else [])
    ensures ErrorEntries(args[..k + 1]) ==
              ErrorEntries(args[..k]) + (if IsError(args[k].value) then [MakeEventError(args[k].value.err)] else [])
  {
    assert args[..k + 1] == args[..k] + [args[k]];
    ErrorsConcat(args[..k], [args[k]]);
    assert [args[k]][1..] == [];
  }

  // ---------------------------------------------------------------------
  // What the encoding promises.

  /** The level is "ERROR" exactly when some Arg is an error, otherwise
      "DEBUG" exactly for debug events. */
  lemma LevelRule(e: Event)
    ensures Level(e) == "ERROR" <==> HasError(e.args)
    ensures !HasError(e.args) ==> (Level(e) == "DEBUG" <==> e.debug)
    ensures Level(e) in {"ERROR", "DEBUG", "INFO"}
  {
    PartitionSizes(e.args);
  }

  /** `info.errors` holds one entry per error-valued Arg, in order, and is
      omitted when there is none. */
  lemma ErrorEntriesOrder(args: seq<Arg>)
    ensures |ErrorEntries(args)| == |Errors(args)|
    ensures forall k :: 0 <= k < |Errors(args)| ==> ErrorEntries(args)[k] == MakeEventError(Errors(args)[k])
    ensures ErrorEntries(args) == [] <==> !HasError(args)
  {
    PartitionSizes(args);
  }

  /** `data` is `{}` exactly when no Arg is a plain value; otherwise it
      holds one member per non-error Arg. */
  lemma DataEmpty(args: seq<Arg>, c: Codec)
    ensures DataJSON(args, c) == "{}" <==> NonErrors(args) == []
  {
    var ps := Pairs(NonErrors(args), c);
    if NonErrors(args) != [] {
      assert |ps[0]| > 0;
    }
  }

  /** The keys of `info`, in order, leaving out each field that is
      empty. */
  lemma InfoOmission(info: EventInfo, c: Codec)
    ensures InfoKeys(info, c) == (if info.program != "" then ["program"] else []) +
                                 (if info.source != "" then ["source"] else []) +
                                 (if info.pid != 0 then ["pid"] else []) +
                                 (if info.errors != [] then ["errors"] else [])
  {
  }

  /** The keys of the fields of `info` that are present. */
  function InfoKeys(info: EventInfo, c: Codec): seq<string>
  {
    var fields := InfoFields(info, c);
    seq(|fields|, k requires 0 <= k < |fields| => fields[k].0)
  }
}
