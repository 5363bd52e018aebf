/** The access-logging wrapper of an `http.Handler` (httpevents/handler.go):
    a response writer that writes the access log the first time a status
    is set, passes at most one status on to the writer it wraps, and is
    reset when the wrapped handler returns or panics. */
module HttpHandler {
  import opened Events
  import opened Handlers
  import opened Logging
  import opened HttpHeaders
  import opened AccessLog
  import opened HttpRequest

  /** A call the wrapper makes on the `http.ResponseWriter` it wraps. */
  datatype Response = WroteHeader(status: int) | WroteBody(body: string)

  /** What `http.ResponseWriter.Write` returns: the count of bytes taken
      and an error, if any. */
  datatype WriteResult = WriteResult(n: int, err: Option<ErrorValue>)

  /** The wrapped `http.ResponseWriter`, as the record of the calls it
      received. `reply` is its answer to a body, given the calls it had
      received before: the wrapped writer may take part of a body or fail. */
  class Recorder {
    var calls: seq<Response>
    const reply: (seq<Response>, string) -> WriteResult

    constructor (reply: (seq<Response>, string) -> WriteResult)
      ensures calls == [] && this.reply == reply
    {
      calls := [];
      this.reply := reply;
    }

    method WriteHeader(status: int)
      modifies this
      ensures calls == old(calls) + [WroteHeader(status)]
    {
      calls := calls + [WroteHeader(status)];
    }

    method Write(b: string) returns (r: WriteResult)
      modifies this
      ensures calls == old(calls) + [WroteBody(b)]
      ensures r == reply(old(calls), b)
    {
      r := reply(calls, b);
      calls := calls + [WroteBody(b)];
    }
  }

  /** `http.StatusOK` and `http.StatusInternalServerError`. */
  const StatusOK := 200
  const StatusInternalServerError := 500

  /** `http.StatusText`: the reason phrase `texts` lists for a status, or
      empty for a status it does not list. */
  function StatusText(texts: map<int, string>, status: int): string
  {
    if status in texts then texts[status] else ""
  }

  /** The access log a `log` call with a logger `l` produces: the event,
      emitted for an error status or in debug mode, carries the request
      snapshot with the status, and the handler saw exactly that event. */
  ghost predicate Logged(e: Option<Event>, l: LoggerCopy, depth: int, line: RequestLine, status: int, statusText: string,
                         headers: seq<Header>, calls0: seq<Call>, calls1: seq<Call>,
                         stack: seq<Frame>, render: (string, seq<Value>) -> string, now: Time)
  {
    (e.Some? <==> Is4xx(status) || Is5xx(status) || l.enableDebug) &&
    (e.None? ==> calls1 == calls0) &&
    (e.Some? ==> calls1 == calls0 + Effect(l.handler, e.value) &&
                 Access(e.value, l.args, l.enableSource, l.enableDebug,
                        l.callDepth + (depth + 1) + (if Is4xx(status) || Is5xx(status) then 4 else 5),
                        LineSlots(line, status, statusText), headers, stack, render, now))
  }

  /** The body of `log` once the logger is taken: the status and its text
      go into the snapshot, and the request writes its access log one
      frame deeper, with the `%:name:` template. */
  method Record(request: Request, l: Logger, ghost lc: LoggerCopy, depth: int, status: int, statusText: string,
                s: LogState, trace: Trace, stack: seq<Frame>, render: (string, seq<Value>) -> string, now: Time)
    returns (e: Option<Event>)
    requires Copy(l) == lc && s.Idle()
    modifies request, s, trace
    ensures s.Idle()
    ensures unchanged(request`line, request`headers)
    ensures request.status == status && request.statusText == statusText
    ensures Logged(e, lc, depth, request.line, status, statusText, request.headers, old(trace.calls), trace.calls,
                   stack, render, now)
  {
    request.status := status;
    request.statusText := statusText;
    ghost var calls0 := trace.calls;
    e := request.Log(l, lc, depth + 1, Clauses, s, trace, stack, render, now);
    LoggedIntro(e, lc, depth, request.line, status, statusText, request.headers, calls0, trace.calls, stack, render, now);
  }

  lemma LoggedIntro(e: Option<Event>, l: LoggerCopy, depth: int, line: RequestLine, status: int, statusText: string,
                    headers: seq<Header>, calls0: seq<Call>, calls1: seq<Call>,
                    stack: seq<Frame>, render: (string, seq<Value>) -> string, now: Time)
    requires e.Some? <==> Is4xx(status) || Is5xx(status) || l.enableDebug
    requires e.None? ==> calls1 == calls0
    requires e.Some? ==> calls1 == calls0 + Effect(l.handler, e.value)
    requires e.Some? ==> Access(e.value, l.args, l.enableSource, l.enableDebug,
                                l.callDepth + (depth + 1) + (if Is4xx(status) || Is5xx(status) then 4 else 5),
                                LineSlots(line, status, statusText), headers, stack, render, now)
    ensures Logged(e, l, depth, line, status, statusText, headers, calls0, calls1, stack, render, now)
  {
  }

  class ResponseWriter {
    var out: Option<Recorder>
    var logger: Option<Logger>
    var request: Request
    var wroteHeader: bool

    /** The pool's `&responseWriter{}`. */
    constructor ()
      ensures out == None && logger == None && !wroteHeader && fresh(request)
    {
      out, logger, wroteHeader := None, None, false;
      request := new Request();
    }

    /** The start of `NewHandlerWith`'s closure: attaches the client's
        writer and the logger and snapshots the request. */
    method Attach(res: Recorder, l: Logger, req: IncomingRequest, laddr: string, order: seq<string>)
      requires VisitOrder(order, req.header)
      modifies this, request
      ensures out == Some(res) && logger == Some(l) && wroteHeader == old(wroteHeader) && request == old(request)
      ensures request.line == Snapshot(req, laddr)
      ensures Listing(request.headers, req.header, order)
    {
      out, logger := Some(res), Some(l);
      request.Reset(req, laddr, order);
    }

    /** The deferred reset of `NewHandlerWith`: detaches the writer and
        the logger, clears the flag and releases the snapshot. */
    method Recycle()
      modifies this, request
      ensures out == None && logger == None && !wroteHeader && request == old(request)
      ensures request.line == EmptyLine && request.status == 0 && request.statusText == ""
      ensures |request.headers| == old(|request.headers|)
      ensures forall k :: 0 <= k < |request.headers| ==> request.headers[k] == Header("", "")
      ensures |request.argbuf| == old(|request.argbuf|)
      ensures forall k :: 0 <= k < |request.argbuf| ==> request.argbuf[k] == None
      ensures request.logbuf == old(request.logbuf)
    {
      out, logger, wroteHeader := None, None, false;
      request.Release();
    }

    /** log: the first call takes the logger away, records the status and
        its text in the snapshot and writes the access log; every later
        call does nothing. */
    method Log(depth: int, status: int, texts: map<int, string>, s: LogState, trace: Trace,
               stack: seq<Frame>, render: (string, seq<Value>) -> string, now: Time)
      returns (e: Option<Event>)
      requires s.Idle()
      modifies this, request, s, trace
      ensures s.Idle()
      ensures logger == None && out == old(out) && request == old(request) && wroteHeader == old(wroteHeader)
      ensures unchanged(request`line, request`headers)
      ensures old(logger).None? ==> (e.None? && trace.calls == old(trace.calls) &&
                                   unchanged(request`status, request`statusText))
      ensures old(logger).Some? ==> (request.status == status && request.statusText == StatusText(texts, status) &&
                                   Logged(e, Copy(old(logger).value), depth, request.line, status, StatusText(texts, status),
                                          request.headers, old(trace.calls), trace.calls, stack, render, now))
    {
      e := None;
      if logger.Some? {
        var l := logger.value;
        logger := None;
        e := Record(request, l, Copy(l), depth, status, StatusText(texts, status), s, trace, stack, render, now);
      }
    }

    /** WriteHeader: writes the access log (the first time), and passes the
        status on only when none was passed yet. */
    method WriteHeader(status: int, texts: map<int, string>, s: LogState, trace: Trace,
                       stack: seq<Frame>, render: (string, seq<Value>) -> string, now: Time)
      returns (e: Option<Event>)
      requires out.Some? && s.Idle()
      modifies this, request, out.value, s, trace
      ensures s.Idle()
      ensures logger == None && out == old(out) && request == old(request) && wroteHeader
      ensures out.value.calls == old(out.value.calls) + (if old(wroteHeader) then [] else [WroteHeader(status)])
      ensures unchanged(request`line, request`headers)
      ensures old(logger).None? ==> (e.None? && trace.calls == old(trace.calls) &&
                                   unchanged(request`status, request`statusText))
      ensures old(logger).Some? ==> (request.status == status && request.statusText == StatusText(texts, status) &&
                                   Logged(e, Copy(old(logger).value), 1, request.line, status, StatusText(texts, status),
                                          request.headers, old(trace.calls), trace.calls, stack, render, now))
    {
      e := Log(1, status, texts, s, trace, stack, render, now);
      if !wroteHeader {
        wroteHeader := true;
        out.value.WriteHeader(status);
      }
    }

    /** Write: a body written before any status first sets "200 OK"; the
        count and the error are the wrapped writer's. */
    method Write(b: string, texts: map<int, string>, s: LogState, trace: Trace,
                 stack: seq<Frame>, render: (string, seq<Value>) -> string, now: Time)
      returns (n: int, err: Option<ErrorValue>, e: Option<Event>)
      requires out.Some? && s.Idle()
      modifies this, request, out.value, s, trace
      ensures s.Idle()
      ensures out == old(out) && request == old(request) && wroteHeader
      ensures WriteResult(n, err) ==
              out.value.reply(old(out.value.calls) + (if old(wroteHeader) then [] else [WroteHeader(StatusOK)]), b)
      ensures out.value.calls == old(out.value.calls) + (if old(wroteHeader) then [] else [WroteHeader(StatusOK)]) + [WroteBody(b)]
      ensures unchanged(request`line, request`headers)
      ensures old(wroteHeader) ==> (e.None? && trace.calls == old(trace.calls) && logger == old(logger) &&
                                   unchanged(request`status, request`statusText))
      ensures !old(wroteHeader) ==> logger == None
      ensures !old(wroteHeader) && old(logger).None? ==> (e.None? && trace.calls == old(trace.calls) &&
                                   unchanged(request`status, request`statusText))
      ensures !old(wroteHeader) && old(logger).Some? ==>
                request.status == StatusOK && request.statusText == StatusText(texts, StatusOK) &&
                Logged(e, Copy(old(logger).value), 1, request.line, StatusOK, StatusText(texts, StatusOK),
                       request.headers, old(trace.calls), trace.calls, stack, render, now)
    {
      e := None;
      ghost var before := out.value.calls + (if wroteHeader then [] else [WroteHeader(StatusOK)]);
      if !wroteHeader {
        e := WriteHeader(StatusOK, texts, s, trace, stack, render, now);
      }
      assert out.value.calls == before;
      var r := out.value.Write(b);
      n, err := r.n, r.err;
    }
  }

  /** What the wrapped handler does with the writer, call by call: set a
      status, write a body, or panic (which ends it). */
  datatype Action = SetStatus(status: int) | Send(body: string) | Fail

  /** The calls the wrapped handler makes before it panics, or all of them. */
  function Handled(actions: seq<Action>): (r: seq<Action>)
    ensures Fail !in r
  {
    if actions == [] || actions[0] == Fail then [] else [actions[0]] + Handled(actions[1..])
  }

  /** The bodies the wrapper passes on, in order. */
  function Writes(acts: seq<Action>): seq<Response>
  {
    if acts == [] then []
    else Writes(acts[..|acts| - 1]) + (if acts[|acts| - 1].Send? then [WroteBody(acts[|acts| - 1].body)] else [])
  }

  /** The status of the first call: the one it sets, or "200 OK" for a
      body written first. */
  function FirstStatus(acts: seq<Action>): int
    requires acts != []
  {
    if acts[0].SetStatus? then acts[0].status else StatusOK
  }

  /** What the wrapped writer receives while the handler runs: nothing
      until the first call, then that call's status, then every body. */
  function Forwarded(acts: seq<Action>): seq<Response>
  {
    if acts == [] then [] else [WroteHeader(FirstStatus(acts))] + Writes(acts)
  }

  /** The one status the client gets: the first call's, or "500 Internal
      Server Error" when the handler panics before any call, or the forced
      "200 OK" when it makes none. */
  function SentStatus(actions: seq<Action>): int
  {
    var h := Handled(actions);
    if h != [] then FirstStatus(h) else if Fail in actions then StatusInternalServerError else StatusOK
  }

  /** The closure of `NewHandlerWith` on a pooled writer `w`: it attaches
      `res` and `logger`, snapshots `req`, runs the wrapped handler, forces
      "200 OK" when it returns or "500 Internal Server Error" when it
      panics, then resets `w` for the pool; `panicked` says that the panic
      is raised again. */
  method Serve(w: ResponseWriter, res: Recorder, logger: Logger, req: IncomingRequest, laddr: string,
               order: seq<string>, actions: seq<Action>, texts: map<int, string>, s: LogState, trace: Trace,
               stack: seq<Frame>, render: (string, seq<Value>) -> string, now: Time)
    returns (panicked: bool, e: Option<Event>, ghost listed: seq<Header>)
    requires VisitOrder(order, req.header) && s.Idle() && !w.wroteHeader
    modifies w, w.request, res, s, trace
    ensures s.Idle()
    ensures panicked <==> Fail in actions
    ensures res.calls == old(res.calls) + ([WroteHeader(SentStatus(actions))] + Writes(Handled(actions)))
    ensures Listing(listed, req.header, order)
    ensures Logged(e, Copy(logger), 1, Snapshot(req, laddr), SentStatus(actions), StatusText(texts, SentStatus(actions)),
                   listed, old(trace.calls), trace.calls, stack, render, now)
    ensures w.out == None && w.logger == None && !w.wroteHeader && w.request == old(w.request)
    ensures w.request.line == EmptyLine && w.request.status == 0 && w.request.statusText == ""
    ensures |w.request.headers| == |listed|
    ensures forall k :: 0 <= k < |w.request.headers| ==> w.request.headers[k] == Header("", "")
    ensures forall k :: 0 <= k < |w.request.argbuf| ==> w.request.argbuf[k] == None
  {
    ghost var lc, calls0, trace0 := Copy(logger), res.calls, trace.calls;
    w.Attach(res, logger, req, laddr, order);
    listed := w.request.headers;
    var i;
    i, e := Run(w, lc, actions, texts, s, trace, stack, render, now);
    panicked := i < |actions|;
    SentCalls(actions, i);
    e := Finish(w, lc, calls0, trace0, actions, i, e, texts, s, trace, stack, render, now);
    w.Recycle();
    assert Copy(logger) == lc;
  }

  /** The end of the closure: the forced status, "500 Internal Server
      Error" after a panic and "200 OK" otherwise, which writes the access
      log and reaches the client only when the handler made no call. */
  method Finish(w: ResponseWriter, ghost lc: LoggerCopy, ghost calls0: seq<Response>, ghost trace0: seq<Call>,
                actions: seq<Action>, i: nat, e0: Option<Event>, texts: map<int, string>,
                s: LogState, trace: Trace, stack: seq<Frame>, render: (string, seq<Value>) -> string, now: Time)
    returns (e: Option<Event>)
    requires i <= |actions| && Fail !in actions[..i] && (i == |actions| || actions[i] == Fail)
    requires w.out.Some? && s.Idle() && w.wroteHeader == (i > 0)
    requires w.out.value.calls == calls0 + Forwarded(actions[..i])
    requires i == 0 ==> w.logger.Some? && Copy(w.logger.value) == lc && e0.None? && trace.calls == trace0
    requires i > 0 ==> w.logger == None &&
                       Logged(e0, lc, 1, w.request.line, FirstStatus(actions[..i]), StatusText(texts, FirstStatus(actions[..i])),
                              w.request.headers, trace0, trace.calls, stack, render, now)
    modifies w, w.request, w.out.value, s, trace
    ensures s.Idle()
    ensures w.out == old(w.out) && w.request == old(w.request)
    ensures unchanged(w.request`line, w.request`headers)
    ensures w.out.value.calls == calls0 + ([WroteHeader(SentStatus(actions))] + Writes(Handled(actions)))
    ensures Logged(e, lc, 1, w.request.line, SentStatus(actions), StatusText(texts, SentStatus(actions)),
                   w.request.headers, trace0, trace.calls, stack, render, now)
  {
    SentCalls(actions, i);
    ghost var forwarded := Forwarded(actions[..i]);
    var status := if i < |actions| then StatusInternalServerError else StatusOK;
    e := w.WriteHeader(status, texts, s, trace, stack, render, now);
    ghost var forced := if i > 0 then [] else [WroteHeader(SentStatus(actions))];
    assert w.out.value.calls == calls0 + forwarded + forced;
    assert calls0 + forwarded + forced == calls0 + (forwarded + forced);
    if i > 0 {
      e := e0;
    }
  }

  /** What the wrapped writer receives in all: the calls of the handler up
      to its panic, then the forced status, passed on only when the
      handler made no call. */
  lemma SentCalls(actions: seq<Action>, i: nat)
    requires i <= |actions| && Fail !in actions[..i] && (i == |actions| || actions[i] == Fail)
    ensures Handled(actions) == actions[..i] && (Fail in actions <==> i < |actions|)
    ensures i > 0 ==> SentStatus(actions) == FirstStatus(actions[..i])
    ensures i == 0 ==> SentStatus(actions) == if i < |actions| then StatusInternalServerError else StatusOK
    ensures Forwarded(actions[..i]) + (if i > 0 then [] else [WroteHeader(SentStatus(actions))]) ==
            [WroteHeader(SentStatus(actions))] + Writes(Handled(actions))
  {
    HandledPrefix(actions, i);
  }

  /** `handler.ServeHTTP(w, req)`: the wrapped handler's calls on the
      writer, up to the first panic. The first call writes the access log
      and passes its status on; the others pass their bodies on. */
  method Run(w: ResponseWriter, ghost lc: LoggerCopy, actions: seq<Action>, texts: map<int, string>, s: LogState, trace: Trace,
             stack: seq<Frame>, render: (string, seq<Value>) -> string, now: Time)
    returns (i: nat, e: Option<Event>)
    requires w.out.Some? && w.logger.Some? && Copy(w.logger.value) == lc && !w.wroteHeader && s.Idle()
    modifies w, w.request, w.out.value, s, trace
    ensures i <= |actions| && Fail !in actions[..i] && (i == |actions| || actions[i] == Fail)
    ensures s.Idle()
    ensures w.out == old(w.out) && w.request == old(w.request) && w.wroteHeader == (i > 0)
    ensures unchanged(w.request`line, w.request`headers)
    ensures w.out.value.calls == old(w.out.value.calls) + Forwarded(actions[..i])
    ensures i == 0 ==> w.logger == old(w.logger) && e.None? && trace.calls == old(trace.calls)
    ensures i > 0 ==> w.logger == None &&
                      Logged(e, lc, 1, w.request.line, FirstStatus(actions[..i]),
                             StatusText(texts, FirstStatus(actions[..i])), w.request.headers,
                             old(trace.calls), trace.calls, stack, render, now)
  {
    ghost var calls0, trace0 := w.out.value.calls, trace.calls;
    ghost var line, headers := w.request.line, w.request.headers;
    e := None;
    i := 0;
    if |actions| == 0 || actions[0] == Fail {
      return;
    }
    // The first call writes the header and logs the request.
    ForwardedStep([], actions[0]);
    PrefixSnoc(actions, 0);
    e := Step(w, actions[0], texts, s, trace, stack, render, now);
    i := Rest(w, w.out.value, w.request, line, headers, calls0, actions, texts, s, trace, stack, render, now);
  }

  /** `w` after its first call: `out` and `request` attached, the header
      written, the logger gone, the snapshot left as `line` and `headers`. */
  predicate Passing(w: ResponseWriter, out: Recorder, request: Request, line: RequestLine, headers: seq<Header>)
    reads w, request
  {
    w.out == Some(out) && w.request == request && w.wroteHeader && w.logger == None &&
    request.line == line && request.headers == headers
  }

  /** The calls after the first, up to the end or the first panic: the header
      is already written, so each passes only its body on. */
  method Rest(w: ResponseWriter, ghost out: Recorder, ghost request: Request, ghost line: RequestLine, ghost headers: seq<Header>,
              ghost calls0: seq<Response>, actions: seq<Action>, texts: map<int, string>, s: LogState, trace: Trace,
              stack: seq<Frame>, render: (string, seq<Value>) -> string, now: Time)
    returns (i: nat)
    requires |actions| > 0 && actions[0] != Fail
    requires Passing(w, out, request, line, headers) && s.Idle()
    requires out.calls == calls0 + Forwarded(actions[..1])
    modifies w, request, out, s, trace
    ensures 1 <= i <= |actions| && Fail !in actions[..i] && (i == |actions| || actions[i] == Fail)
    ensures Passing(w, out, request, line, headers) && s.Idle()
    ensures out.calls == calls0 + Forwarded(actions[..i])
    ensures FirstStatus(actions[..i]) == StepStatus(actions[0])
    ensures trace.calls == old(trace.calls)
  {
    i := 1;
    while i < |actions| && actions[i] != Fail
      invariant 1 <= i <= |actions| && Fail !in actions[..i]
      invariant Passing(w, out, request, line, headers) && s.Idle()
      invariant out.calls == calls0 + Forwarded(actions[..i])
      invariant trace.calls == old(trace.calls)
    {
      Pass(w, out, request, line, headers, calls0, actions, i, texts, s, trace, stack, render, now);
      i := i + 1;
    }
  }

  /** A call after the header is written: only a body goes through, and
      nothing more is logged. */
  method Pass(w: ResponseWriter, ghost out: Recorder, ghost request: Request, ghost line: RequestLine, ghost headers: seq<Header>,
              ghost calls0: seq<Response>, actions: seq<Action>, i: nat,
              texts: map<int, string>, s: LogState, trace: Trace,
              stack: seq<Frame>, render: (string, seq<Value>) -> string, now: Time)
    requires 1 <= i < |actions| && Fail !in actions[..i] && actions[i] != Fail
    requires Passing(w, out, request, line, headers) && s.Idle()
    requires out.calls == calls0 + Forwarded(actions[..i])
    modifies w, request, out, s, trace
    ensures Passing(w, out, request, line, headers) && s.Idle()
    ensures Fail !in actions[..i + 1]
    ensures out.calls == calls0 + Forwarded(actions[..i + 1])
    ensures trace.calls == old(trace.calls)
  {
    ForwardedStep(actions[..i], actions[i]);
    PrefixSnoc(actions, i);
    var _ := Step(w, actions[i], texts, s, trace, stack, render, now);
  }

  lemma PrefixSnoc<T>(xs: seq<T>, i: nat)
    requires i < |xs|
    ensures xs[..i + 1] == xs[..i] + [xs[i]]
  {
    assert xs[..i + 1][..i] == xs[..i];
  }

  /** One call of the wrapped handler on the writer. */
  method Step(w: ResponseWriter, a: Action, texts: map<int, string>, s: LogState, trace: Trace,
              stack: seq<Frame>, render: (string, seq<Value>) -> string, now: Time)
    returns (e: Option<Event>)
    requires a != Fail && w.out.Some? && s.Idle()
    modifies w, w.request, w.out.value, s, trace
    ensures s.Idle()
    ensures w.out == old(w.out) && w.request == old(w.request) && w.wroteHeader
    ensures old(w.logger).None? || !old(w.wroteHeader) ==> w.logger == None
    ensures w.out.value.calls == old(w.out.value.calls) + StepCalls(old(w.wroteHeader), a)
    ensures unchanged(w.request`line, w.request`headers)
    ensures old(w.logger).None? ==> e.None? && trace.calls == old(trace.calls)
    ensures old(w.logger).Some? && !old(w.wroteHeader) ==>
              Logged(e, Copy(old(w.logger).value), 1, w.request.line, StepStatus(a), StatusText(texts, StepStatus(a)),
                     w.request.headers, old(trace.calls), trace.calls, stack, render, now)
  {
    if a.SetStatus? {
      e := w.WriteHeader(a.status, texts, s, trace, stack, render, now);
    } else {
      var n, err;
      n, err, e := w.Write(a.body, texts, s, trace, stack, render, now);
    }
  }

  function StepStatus(a: Action): int
  {
    if a.SetStatus? then a.status else StatusOK
  }

  /** What one call passes on to the wrapped writer. */
  function StepCalls(wrote: bool, a: Action): seq<Response>
  {
    (if wrote then [] else [WroteHeader(StepStatus(a))]) + (if a.Send? then [WroteBody(a.body)] else [])
  }

  lemma ForwardedStep(acts: seq<Action>, a: Action)
    ensures Forwarded(acts + [a]) == Forwarded(acts) + StepCalls(acts != [], a)
    ensures acts != [] ==> FirstStatus(acts + [a]) == FirstStatus(acts)
    ensures acts == [] ==> FirstStatus(acts + [a]) == StepStatus(a)
  {
    assert (acts + [a])[..|acts|] == acts;
    if acts == [] {
      assert Writes([a]) == Writes([]) + (if a.Send? then [WroteBody(a.body)] else []);
    }
  }

  /** The loop stops at the first panic, so what it ran is `Handled`. */
  lemma {:induction false} HandledPrefix(actions: seq<Action>, i: nat)
    requires i <= |actions| && Fail !in actions[..i]
    requires i == |actions| || actions[i] == Fail
    ensures Handled(actions) == actions[..i]
    ensures Fail in actions <==> i < |actions|
  {
    if i > 0 {
      assert actions[0] in actions[..i];
      assert actions[..i] == [actions[0]] + actions[1..][..i - 1];
      HandledPrefix(actions[1..], i - 1);
    }
    if i == |actions| {
      assert actions[..i] == actions;
    }
  }
}
