/** The pooled snapshot of an HTTP request that the access log is written
    from (httpevents/request.go). */
module HttpRequest {
  import opened Events
  import opened Strings
  import opened Format
  import opened Handlers
  import opened Logging
  import opened HttpHeaders
  import opened AccessLog

  /** The parts of an `*http.Request` the snapshot copies. */
  datatype IncomingRequest = IncomingRequest(
    remoteAddr: string, httpMethod: string, host: string,
    path: string, rawQuery: string, fragment: string,
    header: HttpHeader)

  /** `req.UserAgent()`: the first `User-Agent` value, or empty. */
  function UserAgent(h: HttpHeader): string
  {
    if "User-Agent" in h && h["User-Agent"] != [] then h["User-Agent"][0] else ""
  }

  /** Status classes of section 15.5 (client error) and section 15.6
      (server error) of RFC 9110. */
  predicate Is4xx(status: int)
  {
    400 <= status <= 499
  }

  predicate Is5xx(status: int)
  {
    500 <= status <= 599
  }

  /** The strings a snapshot copies from the request. */
  datatype RequestLine = RequestLine(
    laddr: string, raddr: string, httpMethod: string, host: string,
    path: string, query: string, fragment: string, agent: string)

  const EmptyLine := RequestLine("", "", "", "", "", "", "", "")

  /** The verbs of the access log line, in order: the addresses, host
      and method; the path, query and fragment when they are not empty;
      the status, its text and the user agent. */
  function LineSlots(line: RequestLine, status: int, statusText: string): seq<Slot>
  {
    AddressSlots(line) + PathSlots(line) + StatusSlots(line, status, statusText)
  }

  function AddressSlots(line: RequestLine): seq<Slot>
  {
    [Slot("", "local_address", 's', Str(line.laddr)),
     Slot("->", "remote_address", 's', Str(line.raddr)),
     Slot(" - ", "host", 's', Str(line.host)),
     Slot(" - ", "method", 's', Str(line.httpMethod))]
  }

  function PathSlots(line: RequestLine): seq<Slot>
  {
    Optional(" ", "path", line.path) + Optional("?", "query", line.query) + Optional("#", "fragment", line.fragment)
  }

  /** A `%s` slot that is left out when its value is empty. */
  function Optional(lit: string, name: string, value: string): seq<Slot>
  {
    if value != "" then [Slot(lit, name, 's', Str(value))] else []
  }

  function StatusSlots(line: RequestLine, status: int, statusText: string): seq<Slot>
  {
    [Slot(" - ", "status", 'd', Int(status)),
     Slot(" ", "", 's', Str(statusText)),
     Slot(" - ", "", 'q', Str(line.agent))]
  }

  /** The strings `reset` copies from `req`: "???" stands in for a
      missing address, so neither address is ever empty. */
  function Snapshot(req: IncomingRequest, localAddr: string): (line: RequestLine)
    ensures line.laddr != "" && line.raddr != ""
    ensures line.laddr == localAddr || (localAddr == "" && line.laddr == "???")
    ensures line.raddr == req.remoteAddr || (req.remoteAddr == "" && line.raddr == "???")
    ensures line.httpMethod == req.httpMethod && line.host == req.host && line.path == req.path
    ensures line.query == req.rawQuery && line.fragment == req.fragment && line.agent == UserAgent(req.header)
  {
    RequestLine(if localAddr == "" then "???" else localAddr,
                if req.remoteAddr == "" then "???" else req.remoteAddr,
                req.httpMethod, req.host, req.path, req.rawQuery, req.fragment, UserAgent(req.header))
  }

  /** `headers` lists the request's (name, value) pairs sorted by name: a
      sorted permutation of the entries `range` visits in `order`. Which
      of the sorted permutations is left open, as `sort.Sort` leaves it. */
  ghost predicate Listing(headers: seq<Header>, h: HttpHeader, order: seq<string>)
  {
    VisitOrder(order, h) && SortedByName(headers) && multiset(headers) == multiset(Flatten(h, order, {}))
  }

  class Request {
    var line: RequestLine
    var headers: seq<Header>
    var status: int
    var statusText: string
    var logbuf: string
    var argbuf: seq<Option<Value>>

    /** newRequest. */
    constructor ()
      ensures line == EmptyLine && statusText == ""
      ensures headers == [] && status == 0 && logbuf == "" && argbuf == []
    {
      line, headers, status, statusText, logbuf, argbuf := EmptyLine, [], 0, "", "", [];
    }

    /** reset: copies the request, with "???" for a missing address, and
        lists every header value sorted by name. `order` is the order in
        which `range` visits the header map. */
    method Reset(req: IncomingRequest, localAddr: string, order: seq<string>)
      requires VisitOrder(order, req.header)
      modifies this
      ensures line == Snapshot(req, localAddr)
      ensures SortedByName(headers)
      ensures multiset(headers) == multiset(Flatten(req.header, order, {}))
      ensures forall e :: e in headers <==> e.name in req.header && e.value in req.header[e.name]
      ensures status == old(status) && statusText == old(statusText)
      ensures logbuf == old(logbuf) && argbuf == old(argbuf)
    {
      var local, remote := localAddr, req.remoteAddr;
      if |local| == 0 {
        local := "???";
      }
      if |remote| == 0 {
        remote := "???";
      }
      var list := Collect(req.header, order, {});
      SortSorted(list);
      forall e: Header
        ensures e in SortByName(list) <==> e.name in req.header && e.value in req.header[e.name]
      {
        ListedContents(req.header, order, {}, SortByName(list), e);
      }
      line := RequestLine(local, remote, req.httpMethod, req.host, req.path, req.rawQuery, req.fragment, UserAgent(req.header));
      headers := SortByName(list);
    }

    /** release: empties every string, zeroes the status and every header
        and argument slot, keeping the buffers' lengths. */
    method Release()
      modifies this
      ensures line == EmptyLine && statusText == "" && status == 0
      ensures |headers| == |old(headers)| && forall i :: 0 <= i < |headers| ==> headers[i] == Header("", "")
      ensures |argbuf| == |old(argbuf)| && forall i :: 0 <= i < |argbuf| ==> argbuf[i] == None
      ensures logbuf == old(logbuf)
    {
      var hs := headers;
      for i := 0 to |hs|
        invariant |hs| == |headers|
        invariant forall k :: 0 <= k < i ==> hs[k] == Header("", "")
      {
        hs := hs[i := Header("", "")];
      }
      var buf := argbuf;
      for i := 0 to |buf|
        invariant |buf| == |argbuf|
        invariant forall k :: 0 <= k < i ==> buf[k] == None
      {
        buf := buf[i := None];
      }
      line, status, statusText, headers, argbuf := EmptyLine, 0, "", hs, buf;
    }

    /** log: hands the access log line to a copy of `logger` whose call
        depth is raised by `depth + 1`, through `Log` for a 4xx or 5xx
        status and `Debug` otherwise, and keeps the assembled buffers.
        `syntax` is the way the template names its verbs: `Braces` as
        request.go writes it, `Clauses` as the rewriter expects it. */
    method Log(logger: Logger, ghost lc: LoggerCopy, depth: int, syntax: Syntax, s: LogState, trace: Trace,
               stack: seq<Frame>, render: (string, seq<Value>) -> string, now: Time)
      returns (e: Option<Event>)
      requires Copy(logger) == lc && s.Idle()
      modifies this, s, trace
      ensures s.Idle()
      ensures unchanged(this`line, this`headers, this`status, this`statusText)
      ensures logbuf == Template(LineSlots(line, status, statusText), Text(syntax))
      ensures argbuf == Boxed(Values(LineSlots(line, status, statusText)) + [ArgList(HeadersArg(headers))])
      ensures e.Some? <==> Is4xx(status) || Is5xx(status) || lc.enableDebug
      ensures e.None? ==> trace.calls == old(trace.calls)
      ensures e.Some? && syntax == Clauses ==>
                Access(e.value, lc.args, lc.enableSource, lc.enableDebug,
                       lc.callDepth + depth + (if Is4xx(status) || Is5xx(status) then 4 else 5),
                       LineSlots(line, status, statusText), headers, stack, render, now)
      ensures e.Some? && syntax == Braces ==>
                WrittenAccess(e.value, lc.args, lc.enableSource, lc.enableDebug,
                              lc.callDepth + depth + (if Is4xx(status) || Is5xx(status) then 4 else 5),
                              LineSlots(line, status, statusText), headers, stack, render, now)
      ensures e.Some? ==> trace.calls == old(trace.calls) + Effect(lc.handler, e.value)
    {
      var fmt, arg;
      e, fmt, arg := LogAccess(logger, lc, depth, syntax, line, status, statusText, headers, s, trace, stack, render, now);
      argbuf, logbuf := Boxed(arg), fmt;
    }
  }

  /** The positional values as the request's `[]interface{}` buffer holds them. */
  function Boxed(vs: seq<Value>): (r: seq<Option<Value>>)
    ensures |r| == |vs|
    ensures forall k :: 0 <= k < |vs| ==> r[k] == Some(vs[k])
  {
    seq(|vs|, k requires 0 <= k < |vs| => Some(vs[k]))
  }

  /** The body of `log` on the request's values: the template and the
      positional values it assembles, and the event the adjusted logger
      emits from them. With the `%:name:` syntax every value is logged
      under its name; with the `%{name}` syntax of request.go the braces
      reach printf and every value is logged unnamed. */
  method LogAccess(logger: Logger, ghost lc: LoggerCopy, depth: int, syntax: Syntax,
                   line: RequestLine, status: int, statusText: string,
                   headers: seq<Header>, s: LogState, trace: Trace,
                   stack: seq<Frame>, render: (string, seq<Value>) -> string, now: Time)
    returns (e: Option<Event>, fmt: string, arg: seq<Value>)
    requires Copy(logger) == lc && s.Idle()
    modifies s, trace
    ensures s.Idle()
    ensures fmt == Template(LineSlots(line, status, statusText), Text(syntax))
    ensures arg == Values(LineSlots(line, status, statusText)) + [ArgList(HeadersArg(headers))]
    ensures e.Some? <==> Is4xx(status) || Is5xx(status) || lc.enableDebug
    ensures e.None? ==> trace.calls == old(trace.calls)
    ensures e.Some? && syntax == Clauses ==>
              Access(e.value, lc.args, lc.enableSource, lc.enableDebug,
                     lc.callDepth + depth + (if Is4xx(status) || Is5xx(status) then 4 else 5),
                     LineSlots(line, status, statusText), headers, stack, render, now)
    ensures e.Some? && syntax == Braces ==>
              WrittenAccess(e.value, lc.args, lc.enableSource, lc.enableDebug,
                            lc.callDepth + depth + (if Is4xx(status) || Is5xx(status) then 4 else 5),
                            LineSlots(line, status, statusText), headers, stack, render, now)
    ensures e.Some? ==> trace.calls == old(trace.calls) + Effect(lc.handler, e.value)
  {
    LineSlotsWellFormed(line, status, statusText);
    fmt, arg := Compose(line, status, statusText, syntax);
    arg := arg + [ArgList(HeadersArg(headers))];
    e := EmitAccess(logger, lc, depth, Is4xx(status) || Is5xx(status), syntax, LineSlots(line, status, statusText), headers,
                    fmt, arg, s, trace, stack, render, now);
  }

  /** The access log event of well-formed `slots`, emitted by the copy of
      `logger` one frame deeper than `depth`, as an error or as a debug
      event. */
  method EmitAccess(logger: Logger, ghost lc: LoggerCopy, depth: int, error: bool, ghost syntax: Syntax,
                    ghost slots: seq<Slot>, headers: seq<Header>,
                    fmt: string, arg: seq<Value>, s: LogState, trace: Trace,
                    stack: seq<Frame>, render: (string, seq<Value>) -> string, now: Time)
    returns (e: Option<Event>)
    requires WellFormed(slots)
    requires fmt == Template(slots, Text(syntax)) && arg == Values(slots) + [ArgList(HeadersArg(headers))]
    requires Copy(logger) == lc && s.Idle()
    modifies s, trace
    ensures s.Idle()
    ensures e.Some? <==> error || lc.enableDebug
    ensures e.None? ==> trace.calls == old(trace.calls)
    ensures e.Some? && syntax == Clauses ==>
              Access(e.value, lc.args, lc.enableSource, lc.enableDebug,
                     lc.callDepth + depth + (if error then 4 else 5), slots, headers, stack, render, now)
    ensures e.Some? && syntax == Braces ==>
              WrittenAccess(e.value, lc.args, lc.enableSource, lc.enableDebug,
                            lc.callDepth + depth + (if error then 4 else 5), slots, headers, stack, render, now)
    ensures e.Some? ==> trace.calls == old(trace.calls) + Effect(lc.handler, e.value)
  {
    var l := Adjusted(logger, depth + 1);
    ghost var adjusted := lc.(callDepth := lc.callDepth + depth + 1);
    e := Emit(l, adjusted, error, fmt, arg, s, trace, stack, render, now);
    if e.Some? {
      ghost var skip := lc.callDepth + depth + (if error then 4 else 5);
      if syntax == Clauses {
        AccessEvent(e.value, adjusted, if error then 1 else 2, skip, slots, headers, fmt, arg, stack, render, now);
      } else {
        WrittenAccessEvent(e.value, adjusted, if error then 1 else 2, skip, slots, headers, fmt, arg, stack, render, now);
      }
    }
  }

  /** The trailing Args of the access log: the sorted header list. */
  function HeadersArg(headers: seq<Header>): seq<Arg>
  {
    [Arg("headers", HeaderList(headers))]
  }

  /** `e` is the access log event with `slots` and `headers` that a logger
      with Args `args` and the given options emits when the frame it reports
      is `depth` frames below the caller: the logger's own Args, each slot's
      value under the slot's name, then the headers; the message is the
      plain printf template rendered with the values. */
  ghost predicate Access(e: Event, args: seq<Arg>, enableSource: bool, enableDebug: bool, depth: int,
                         slots: seq<Slot>, headers: seq<Header>,
                         stack: seq<Frame>, render: (string, seq<Value>) -> string, now: Time)
  {
    e.args == args + NamedArgs(slots) + HeadersArg(headers) &&
    e.message == render(Template(slots, Plain), Values(slots)) &&
    e.debug == enableDebug && e.time == now &&
    e.source == SourceOf(enableSource, Caller(stack, depth))
  }

  /** `e` is the access log event that the `%{name}` template of `slots`
      gives: the logger's own Args, one unnamed Arg per verb the rewriter
      finds, then the headers; the message is that template, braces
      included, rendered with the slot values. */
  ghost predicate WrittenAccess(e: Event, args: seq<Arg>, enableSource: bool, enableDebug: bool, depth: int,
                                slots: seq<Slot>, headers: seq<Header>,
                                stack: seq<Frame>, render: (string, seq<Value>) -> string, now: Time)
  {
    var verbs := Rewrite(Template(slots, Written), Values(slots)).args;
    e.args == args + verbs + HeadersArg(headers) &&
    (forall a :: a in verbs ==> a.name == "") &&
    e.message == render(Template(slots, Written), Values(slots)) &&
    e.debug == enableDebug && e.time == now &&
    e.source == SourceOf(enableSource, Caller(stack, depth))
  }

  /** `l := *logger; l.CallDepth += extra`: a copy of the logger with a
      deeper call depth. */
  method Adjusted(logger: Logger, extra: int) returns (l: Logger)
    ensures fresh(l)
    ensures l.handler == logger.handler && l.args == logger.args && l.callDepth == logger.callDepth + extra
    ensures l.enableSource == logger.enableSource && l.enableDebug == logger.enableDebug
  {
    l := new Logger(logger.handler);
    l.args := logger.args;
    l.callDepth := logger.callDepth + extra;
    l.enableSource := logger.enableSource;
    l.enableDebug := logger.enableDebug;
  }

  /** The switch of `log`: `Log` for an error status, `Debug` otherwise. */
  method Emit(l: Logger, ghost lc: LoggerCopy, error: bool, fmt: string, arg: seq<Value>, s: LogState, trace: Trace,
              stack: seq<Frame>, render: (string, seq<Value>) -> string, now: Time)
    returns (e: Option<Event>)
    requires Copy(l) == lc && s.Idle()
    modifies s, trace
    ensures s.Idle()
    ensures e.Some? <==> error || lc.enableDebug
    ensures e.None? ==> trace.calls == old(trace.calls)
    ensures e.Some? ==> Emitted(e.value, lc, if error then 1 else 2, fmt, arg, stack, render, now) &&
                        trace.calls == old(trace.calls) + Effect(lc.handler, e.value)
  {
    if error {
      var ev := l.Log(fmt, arg, s, trace, stack, render, now);
      e := Some(ev);
    } else {
      e := l.Debug(fmt, arg, s, trace, stack, render, now);
    }
  }

  /** The template and the positional values of the access log,
      assembled piece by piece, with verbs named in `syntax`. */
  method Compose(line: RequestLine, status: int, statusText: string, syntax: Syntax) returns (fmt: string, arg: seq<Value>)
    ensures fmt == Template(LineSlots(line, status, statusText), Text(syntax))
    ensures arg == Values(LineSlots(line, status, statusText))
  {
    var text := Text(syntax);
    fmt := Template(AddressSlots(line), text);
    arg := [Str(line.laddr), Str(line.raddr), Str(line.host), Str(line.httpMethod)];
    ghost var slots := AddressSlots(line);
    assert arg == Values(slots);
    fmt, arg := AppendOptional(slots, fmt, arg, " ", "path", line.path, text);
    slots := slots + Optional(" ", "path", line.path);
    fmt, arg := AppendOptional(slots, fmt, arg, "?", "query", line.query, text);
    slots := slots + Optional("?", "query", line.query);
    fmt, arg := AppendOptional(slots, fmt, arg, "#", "fragment", line.fragment, text);
    slots := slots + Optional("#", "fragment", line.fragment);
    var tail := StatusSlots(line, status, statusText);
    TemplateConcat(slots, tail, text);
    MapConcat(SlotValue, slots, tail);
    fmt := fmt + Template(tail, text);
    arg := arg + [Int(status), Str(statusText), Str(line.agent)];
    assert slots + tail == LineSlots(line, status, statusText);
  }

  /** One conditional part of the template, its verb written by `text`:
      appended only when its value is not empty. */
  method AppendOptional(ghost slots: seq<Slot>, fmt: string, arg: seq<Value>, lit: string, name: string, value: string,
                        text: Slot -> string)
    returns (fmt': string, arg': seq<Value>)
    requires fmt == Template(slots, text) && arg == Values(slots)
    ensures fmt' == Template(slots + Optional(lit, name, value), text)
    ensures arg' == Values(slots + Optional(lit, name, value))
  {
    fmt', arg' := fmt, arg;
    if |value| != 0 {
      var sl := Slot(lit, name, 's', Str(value));
      TemplateConcat(slots, [sl], text);
      assert Template([sl], text) == text(sl) + "";
      fmt' := fmt + text(sl);
      arg' := arg + [sl.value];
      MapSnoc(SlotValue, slots, sl);
    } else {
      assert slots + [] == slots;
    }
  }

  /** The access log's slots are well formed, whatever the request. */
  lemma LineSlotsWellFormed(line: RequestLine, status: int, statusText: string)
    ensures WellFormed(LineSlots(line, status, statusText))
  {
    var a, p, t := AddressSlots(line), PathSlots(line), StatusSlots(line, status, statusText);
    AddressWellFormed(line);
    PathWellFormed(line);
    StatusWellFormed(line, status, statusText);
    WellFormedConcat(a, p);
    WellFormedConcat(a + p, t);
  }

  lemma AddressWellFormed(line: RequestLine)
    ensures WellFormed(AddressSlots(line))
  {
    var a := AddressSlots(line);
    AddressNames();
    assert '%' !in "->" && ':' !in "->" && '%' !in " - " && ':' !in " - ";
    assert WellFormed(a[..2]);
    assert WellFormed(a[2..]);
    WellFormedConcat(a[..2], a[2..]);
    assert a[..2] + a[2..] == a;
  }

  lemma AddressNames()
    ensures ':' !in "local_address" && ':' !in "remote_address" && ':' !in "host" && ':' !in "method"
  {
  }

  lemma PathWellFormed(line: RequestLine)
    ensures WellFormed(PathSlots(line))
  {
    var p, q, f := Optional(" ", "path", line.path), Optional("?", "query", line.query), Optional("#", "fragment", line.fragment);
    assert WellFormed(p) by {
      assert ':' !in "path" && '%' !in " " && ':' !in " ";
    }
    assert WellFormed(q) by {
      assert ':' !in "query" && '%' !in "?" && ':' !in "?";
    }
    assert WellFormed(f) by {
      assert ':' !in "fragment" && '%' !in "#" && ':' !in "#";
    }
    WellFormedConcat(p, q);
    WellFormedConcat(p + q, f);
  }

  lemma StatusWellFormed(line: RequestLine, status: int, statusText: string)
    ensures WellFormed(StatusSlots(line, status, statusText))
  {
    assert ':' !in "status" && '%' !in " - " && ':' !in " - " && '%' !in " " && ':' !in " ";
  }

  /** The event a logger makes of the access log template is the access
      log event: its own Args, each slot's value under the slot's name,
      then the headers; the message is the plain template rendered with
      the slot values. */
  lemma AccessEvent(e: Event, l: LoggerCopy, depth: int, skip: int,
                    slots: seq<Slot>, headers: seq<Header>, fmt: string, arg: seq<Value>,
                    stack: seq<Frame>, render: (string, seq<Value>) -> string, now: Time)
    requires WellFormed(slots)
    requires fmt == Template(slots, Named) && arg == Values(slots) + [ArgList(HeadersArg(headers))]
    requires Emitted(e, l, depth, fmt, arg, stack, render, now) && skip == l.callDepth + depth + 2
    ensures Access(e, l.args, l.enableSource, l.enableDebug, skip, slots, headers, stack, render, now)
  {
    var split := SplitTrailing(arg);
    assert split.0 == arg[..|arg| - 1] == Values(slots);
    NamedRewrite(slots);
  }

  /** The event a logger makes of the `%{name}` access log template is
      the written access log event. */
  lemma WrittenAccessEvent(e: Event, l: LoggerCopy, depth: int, skip: int,
                           slots: seq<Slot>, headers: seq<Header>, fmt: string, arg: seq<Value>,
                           stack: seq<Frame>, render: (string, seq<Value>) -> string, now: Time)
    requires WellFormed(slots)
    requires fmt == Template(slots, Written) && arg == Values(slots) + [ArgList(HeadersArg(headers))]
    requires Emitted(e, l, depth, fmt, arg, stack, render, now) && skip == l.callDepth + depth + 2
    ensures WrittenAccess(e, l.args, l.enableSource, l.enableDebug, skip, slots, headers, stack, render, now)
  {
    var split := SplitTrailing(arg);
    assert split.0 == arg[..|arg| - 1] == Values(slots);
    WrittenRewrite(slots);
  }

  /** The named Args the access log adds: the addresses, host and method
      first, under their names; the status under its name, then its text
      and the user agent unnamed, last. */
  lemma LineArgs(line: RequestLine, status: int, statusText: string)
    ensures var args := NamedArgs(LineSlots(line, status, statusText));
            |args| >= 7 &&
            args[..4] == [Arg("local_address", Str(line.laddr)), Arg("remote_address", Str(line.raddr)),
                          Arg("host", Str(line.host)), Arg("method", Str(line.httpMethod))] &&
            args[|args| - 3..] == [Arg("status", Int(status)), Arg("", Str(statusText)), Arg("", Str(line.agent))]
  {
    var a, p, t := AddressSlots(line), PathSlots(line), StatusSlots(line, status, statusText);
    MapConcat(SlotArg, a + p, t);
    MapConcat(SlotArg, a, p);
  }

  /** The path, query and fragment each get a slot exactly when they are
      not empty, and it holds their value under their name. */
  lemma OptionalParts(line: RequestLine, status: int, statusText: string)
    ensures var args := NamedArgs(LineSlots(line, status, statusText));
            |args| == 7 + |Optional(" ", "path", line.path)| + |Optional("?", "query", line.query)| +
                      |Optional("#", "fragment", line.fragment)| &&
            (Arg("path", Str(line.path)) in args <==> line.path != "") &&
            (Arg("query", Str(line.query)) in args <==> line.query != "") &&
            (Arg("fragment", Str(line.fragment)) in args <==> line.fragment != "")
  {
    PathPart(line, status, statusText);
    QueryPart(line, status, statusText);
    FragmentPart(line, status, statusText);
  }

  lemma PathPart(line: RequestLine, status: int, statusText: string)
    ensures Arg("path", Str(line.path)) in NamedArgs(LineSlots(line, status, statusText)) <==> line.path != ""
  {
    var a, t := AddressSlots(line), StatusSlots(line, status, statusText);
    var o2, o3 := Optional("?", "query", line.query), Optional("#", "fragment", line.fragment);
    AddressNames();
    assert LineSlots(line, status, statusText) == a + Optional(" ", "path", line.path) + (o2 + o3 + t);
    OptionalMember(a, " ", "path", line.path, o2 + o3 + t);
  }

  lemma QueryPart(line: RequestLine, status: int, statusText: string)
    ensures Arg("query", Str(line.query)) in NamedArgs(LineSlots(line, status, statusText)) <==> line.query != ""
  {
    var a, t := AddressSlots(line), StatusSlots(line, status, statusText);
    var o1, o3 := Optional(" ", "path", line.path), Optional("#", "fragment", line.fragment);
    AddressNames();
    assert LineSlots(line, status, statusText) == (a + o1) + Optional("?", "query", line.query) + (o3 + t);
    OptionalMember(a + o1, "?", "query", line.query, o3 + t);
  }

  lemma FragmentPart(line: RequestLine, status: int, statusText: string)
    ensures Arg("fragment", Str(line.fragment)) in NamedArgs(LineSlots(line, status, statusText)) <==> line.fragment != ""
  {
    var a, t := AddressSlots(line), StatusSlots(line, status, statusText);
    var o1, o2 := Optional(" ", "path", line.path), Optional("?", "query", line.query);
    AddressNames();
    assert LineSlots(line, status, statusText) == (a + o1 + o2) + Optional("#", "fragment", line.fragment) + t;
    OptionalMember(a + o1 + o2, "#", "fragment", line.fragment, t);
  }

  /** A slot left out when its value is empty is found among the Args
      exactly when the value is not empty, provided no other slot has its
      name. */
  lemma OptionalMember(pre: seq<Slot>, lit: string, name: string, value: string, post: seq<Slot>)
    requires forall sl :: sl in pre + post ==> sl.name != name
    ensures Arg(name, Str(value)) in NamedArgs(pre + Optional(lit, name, value) + post) <==> value != ""
  {
    var slots := pre + Optional(lit, name, value) + post;
    var args := NamedArgs(slots);
    if value != "" {
      assert args[|pre|] == Arg(name, Str(value));
    } else {
      assert slots == pre + post;
      forall k | 0 <= k < |args|
        ensures args[k] != Arg(name, Str(value))
      {
        assert slots[k] in pre + post;
      }
    }
  }

  /** The template as request.go writes it, with `%{name}` verbs: the
      rewriter finds no clause in it, so the format reaches printf with the
      braces still in it and none of the values gets a name; the Args of
      the event then hold the logger's own Args, unnamed values and the
      headers, and no `local_address` at all. */
  lemma WrittenLineArgs(line: RequestLine, status: int, statusText: string, loggerArgs: seq<Arg>, headers: seq<Header>)
    ensures var slots := LineSlots(line, status, statusText);
            var fmt := Template(slots, Written);
            var arg := Values(slots) + [ArgList(HeadersArg(headers))];
            Rewrite(fmt, Positional(arg)).format == fmt &&
            EventArgs(loggerArgs, fmt, arg) == loggerArgs + Rewrite(fmt, Positional(arg)).args + HeadersArg(headers) &&
            Arg("local_address", Str(line.laddr)) !in Rewrite(fmt, Positional(arg)).args
  {
    var slots := LineSlots(line, status, statusText);
    var arg := Values(slots) + [ArgList(HeadersArg(headers))];
    LineSlotsWellFormed(line, status, statusText);
    assert SplitTrailing(arg).0 == arg[..|arg| - 1] == Values(slots);
    WrittenRewrite(slots);
  }
}
