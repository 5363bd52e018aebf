/** The sanitizer record of the HTTP access log (httpevents/sanitizer.go):
    the hooks that rewrite the request and response headers, the path and
    the query before they are logged. A `LogSanitizer` is a value; its
    builders return a modified copy. */
module Sanitizer {
  import opened HttpHeaders

  /** The four hooks. */
  datatype LogSanitizer = LogSanitizer(reqHeaders: HttpHeader -> HttpHeader,
                                       resHeaders: HttpHeader -> HttpHeader,
                                       path: string -> string,
                                       query: string -> string)
  {
    /** ReqHeaders: the request hook applied to a copy of the headers,
        which, as a value, is the hook applied to the headers. */
    method ReqHeaders(h: HttpHeader) returns (r: HttpHeader)
      ensures r == reqHeaders(h)
    {
      var c := CopyMap(h);
      r := reqHeaders(c);
    }

    /** ResHeaders: the same with the response hook. */
    method ResHeaders(h: HttpHeader) returns (r: HttpHeader)
      ensures r == resHeaders(h)
    {
      var c := CopyMap(h);
      r := resHeaders(c);
    }

    /** WithQuerySanitizer: a copy whose query hook is `sanitizer`. */
    function WithQuerySanitizer(sanitizer: string -> string): (r: LogSanitizer)
      ensures r.query == sanitizer
      ensures r.reqHeaders == reqHeaders && r.resHeaders == resHeaders && r.path == path
    {
      this.(query := sanitizer)
    }

    /** WithReqHeaderSanitizer: a copy whose request-header hook is
        `sanitizer`. */
    function WithReqHeaderSanitizer(sanitizer: HttpHeader -> HttpHeader): (r: LogSanitizer)
      ensures r.reqHeaders == sanitizer
      ensures r.resHeaders == resHeaders && r.path == path && r.query == query
    {
      this.(reqHeaders := sanitizer)
    }

    /** WithResHeaderSanitizer: a copy whose response-header hook is
        `sanitizer`. */
    function WithResHeaderSanitizer(sanitizer: HttpHeader -> HttpHeader): (r: LogSanitizer)
      ensures r.resHeaders == sanitizer
      ensures r.reqHeaders == reqHeaders && r.path == path && r.query == query
    {
      this.(resHeaders := sanitizer)
    }

    /** WithPathSanitizer: a copy whose path hook is `sanitizer`. */
    function WithPathSanitizer(sanitizer: string -> string): (r: LogSanitizer)
      ensures r.path == sanitizer
      ensures r.reqHeaders == reqHeaders && r.resHeaders == resHeaders && r.query == query
    {
      this.(path := sanitizer)
    }
  }

  /** copyMap: a new map filled name by name, in whatever order the map
      is visited; as a value it is the map it was made from. */
  method CopyMap(h: HttpHeader) returns (m: HttpHeader)
    ensures m == h
  {
    m := map[];
    var todo := h.Keys;
    while todo != {}
      invariant todo <= h.Keys
      invariant m.Keys == h.Keys - todo
      invariant forall k :: k in m ==> m[k] == h[k]
      decreases todo
    {
      var k :| k in todo;
      m := m[k := h[k]];
      todo := todo - {k};
    }
    assert m.Keys == h.Keys;
  }

  /** The default hooks: each returns its input. */
  function DefaultHeaderSanitizer(h: HttpHeader): HttpHeader
  {
    h
  }

  function DefaultPathSanitizer(path: string): string
  {
    path
  }

  function DefaultQuerySanitizer(query: string): string
  {
    query
  }

  /** NewLogSanitizer: the defaults in every hook. */
  function NewLogSanitizer(): (l: LogSanitizer)
    ensures l.reqHeaders == DefaultHeaderSanitizer && l.resHeaders == DefaultHeaderSanitizer
    ensures l.path == DefaultPathSanitizer && l.query == DefaultQuerySanitizer
  {
    LogSanitizer(DefaultHeaderSanitizer, DefaultHeaderSanitizer, DefaultPathSanitizer, DefaultQuerySanitizer)
  }

  /** A new sanitizer logs the headers, the path and the query as they
      are. */
  lemma NewIsIdentity(h: HttpHeader, path: string, query: string)
    ensures NewLogSanitizer().reqHeaders(h) == h
    ensures NewLogSanitizer().resHeaders(h) == h
    ensures NewLogSanitizer().path(path) == path
    ensures NewLogSanitizer().query(query) == query
  {
  }

  /** The last builder of a hook wins, and builders of different hooks
      commute. */
  lemma BuildersCompose(l: LogSanitizer, f: string -> string, g: string -> string,
                        a: HttpHeader -> HttpHeader, b: HttpHeader -> HttpHeader)
    ensures l.WithQuerySanitizer(f).WithQuerySanitizer(g) == l.WithQuerySanitizer(g)
    ensures l.WithPathSanitizer(f).WithPathSanitizer(g) == l.WithPathSanitizer(g)
    ensures l.WithReqHeaderSanitizer(a).WithReqHeaderSanitizer(b) == l.WithReqHeaderSanitizer(b)
    ensures l.WithResHeaderSanitizer(a).WithResHeaderSanitizer(b) == l.WithResHeaderSanitizer(b)
    ensures l.WithPathSanitizer(f).WithQuerySanitizer(g) == l.WithQuerySanitizer(g).WithPathSanitizer(f)
    ensures l.WithReqHeaderSanitizer(a).WithResHeaderSanitizer(b) == l.WithResHeaderSanitizer(b).WithReqHeaderSanitizer(a)
  {
  }
}
