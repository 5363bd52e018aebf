# events — a Dafny model

This project models the core of `segmentio/events`, a Go structured-logging
library. The model covers these parts:

- **The logger** (`logger.go`). It turns a printf-like template with named
  verbs (`%:name:s`) and its arguments into an event, then hands the event
  to a handler. The event holds a rendered message, named Args, the caller's
  source, a debug flag and a time.
- **The template rewriter** (`appendFormat`). It strips the names out of
  the template and pairs each verb with the next argument.
- **The handlers**:
  - `HandlerFunc`, `MultiHandler` and `Discard`;
  - the human-readable text handler;
  - the JSON handler of package `ecslogs`;
  - the recording handler of package `eventstest`.
- **The standard-library bridge** (`log/writer.go`). It parses the lines of
  Go's `log` package back into events.
- **Source paths** (`trimGOPATH`). It shortens a source path.
- **The HTTP access log** (`httpevents`):
  - the request snapshot and its log line;
  - the sorted header list;
  - the response writer that logs once, when the status is set;
  - the logger mask and the sanitizer record.
- **Signal errors** (`signal.go`): the error that a signal-cancelled context
  reports.

The model has one Dafny module per source file:

| module | models |
|---|---|
| `Events` | events, Args, error values |
| `Strings` | the string helpers the code relies on |
| `Format` and `FormatFacts` | `appendFormat` and the rewriting it performs |
| `Logging` | `Logger` and `logState` |
| `Handlers` | `handler.go` |
| `Source` | `trimGOPATH` |
| `Text` | the text handler |
| `Ecslogs` | the JSON handler |
| `EventsTest` | the recording handler |
| `LogWriter` | `log/writer.go` |
| `HttpHeaders` | `header.go` |
| `AccessLog` and `HttpRequest` | `request.go` |
| `HttpHandler` | `handler.go` of `httpevents` |
| `Mask` | `mask.go` |
| `Sanitizer` | `sanitizer.go` |
| `Signals` | `signal.go` |

Objects whose fields the code updates in place are classes:

- the logger and the pooled log state;
- the buffers;
- the handlers with state;
- the sorted header list;
- the request snapshot;
- the response writer, and the wrapped `http.ResponseWriter` it writes to,
  which is a record of the calls it receives;
- the signal context.

Each of their methods has a contract that gives the new state, most of
them through a specification function.

Go strings and byte slices are bytes. The model writes them as Dafny
`string`s read as byte sequences: each `char` stands for one byte, never
for a decoded character. So `|b|` is Go's `len(b)`, and a slice such as
`s[n..]` cuts at the same byte offset as Go's `s[n:]`. A non-ASCII byte
is just one more `char`. No contract depends on UTF-8 decoding.

The model works on values in these places:

- The template rewriter is specified by a lexer, `Format.LexFrom`, and the
  function `Format.Rewrite` built on it. The loops of `appendFormat` are
  proved to compute it.
- A handler's only observable effect is the calls it makes. These are
  recorded in a `Handlers.Trace`.
- Library functions whose behaviour the code does not define are
  parameters of the model:
  - `fmt` rendering;
  - JSON quoting;
  - time formatting and parsing;
  - `runtime.Callers`, which is a stack of frames;
  - reflection type names;
  - `http.StatusText`, which is a map.

## Model

| member | source | states |
|---|---|---|
| Format.AppendFormat | logger.go:197-255 | the format and the Args appended are exactly those of `Rewrite(srcFmt, srcArgs)`, after the given prefixes |
| Format.ScanVerb | logger.go:213-243 | the verb loop consumes one verb (its name and its printf text) and stops where the lexer resumes plain text |
| Format.ExtractName | logger.go:226-241 | the `:` clause is closed at the next `:` (name between them) or, with no closing `:`, is the rest of the template |
| Format.ScanClause | logger.go:226-241 | a closed clause ends just after a `:` and its name is the text between the two `:`; an unclosed one is the whole rest |
| FormatFacts.RewriteNoPercent | logger.go:199-202 | a template without `%` is copied as is and yields no Args |
| FormatFacts.RewriteLiteralPrefix | logger.go:199-205 | text before the first `%` is copied and does not change the Args |
| FormatFacts.RewriteEscape | logger.go:207-211 | `%%` is copied and consumes no argument |
| FormatFacts.RewriteTrailingPercent | logger.go:204-251 | a lone trailing `%` is copied and still takes the next argument (or MISSING) as an unnamed Arg |
| FormatFacts.VerbToLetter | logger.go:216-224 | a verb ends at its first letter and keeps every character up to it |
| FormatFacts.VerbToEnd | logger.go:216-243 | a verb with no letter and no `:` runs to the end of the template |
| FormatFacts.ArgsPositional | logger.go:245-251 | the k-th verb gets the k-th argument, or MISSING when the arguments run out, under its name |
| FormatFacts.RewriteArgs | logger.go:245-251 | one Arg per verb, in order, the k-th holding the k-th value or MISSING |
| FormatFacts.RewriteUnnamed | logger.go:226-241 | without a `:` in the template no Arg gets a name |
| FormatFacts.RewriteVerbatim | logger.go:197-255 | without a `:` the template comes out unchanged |
| FormatFacts.RewritePlainVerb | logger.go:218-224 | `%c` with a letter c is one unnamed verb taking the next value |
| FormatFacts.RewriteNamedVerb | logger.go:226-241 | `%:name:c` becomes `%c` and names the next value `name` |
| FormatFacts.RewriteUnclosed | logger.go:227-238 | `%:` and `%5:id` (no closing `:`) are copied and still take one unnamed value |
| FormatFacts.RewriteHello | logger.go:41-49 | the documented `Hello %:name:s!` becomes `Hello %s!` with the Arg `name` |
| Logging.LogState.constructor | logger.go:186-195 | a new log state is empty |
| Logging.LogState.AppendSource | logger.go:97-107 | the source is `file:line` of the caller frame when enabled and found, else empty |
| Logging.LogState.AppendArgs | logger.go:115-117 | the event's Args are the logger's Args, the rewritten Args, then the trailing Args list |
| Logging.LogState.Compose | logger.go:109-119 | the Args, the positional format and the rendered message of one event |
| Logging.LogState.Release | logger.go:128-136 | the message, source, Args and buffers are emptied for reuse |
| Logging.LogState.Write | logger.go:180-184 | `Write` appends to the message buffer and returns `len(b)`, the number of bytes (one `char` per byte) |
| Logging.SplitTrailing | logger.go:109-113 | a final `Args` value is split off the arguments; otherwise nothing is |
| Logging.Logger.constructor | logger.go:80-86 | a new logger has the handler, no Args, depth 0, source and debug on |
| Logging.Logger.LogAt | logger.go:93-139 | the event handed to the handler: Args, rendered message, debug flag, time, and the source of frame `CallDepth + depth + 2`; the handler is called exactly once |
| Logging.Logger.Log | logger.go:89-91 | `Log` emits the event of `log` at depth 1 |
| Logging.Logger.DebugAt | logger.go:147-151 | an event is emitted if and only if debugging is enabled; otherwise the handler is not called |
| Logging.Logger.Debug | logger.go:143-145 | `Debug` is `debug` at depth 1 |
| Logging.Logger.With | logger.go:154-170 | a new logger with the parent's Args followed by the new ones, the same handler and switches, and depth 0 |
| Logging.EventArgsLayout | logger.go:109-117 | the Args of an event: the logger's Args, then one per verb, then the trailing list |
| Logging.TrailingNotPositional | logger.go:109-117 | a trailing `Args` value is never consumed by a verb |
| Logging.HelloExample | logger.go:41-49 | the documented example gives Args `name`, `from` and the format `Hello %s!` |
| Logging.WithExample | logger_test.go:153-173 | a grandchild logger's event carries both inherited Args before the trailing one |
| Handlers.Trace.HandleEvent | handler.go:20-33 | handling appends exactly the calls of `Effect(h, e)` |
| Handlers.EffectAllConcat | handler.go:29-33 | the fan-out over two lists is the fan-out over each, in order |
| Handlers.MultiCallsEachOnce | handler.go:29-33 | a `MultiHandler` of functions calls each exactly once, in list order |
| Handlers.MultiConcat | handler.go:29-33 | nesting of `MultiHandler`s does not change the calls made |
| Handlers.MultiOfDiscards | handler.go:29-36 | a `MultiHandler` of `Discard`s makes no call |
| Source.TrimGOPATH | source.go:42-80 | the result is a suffix of the path; with too few separators it is the whole path; otherwise it starts right after the separator that leaves `Count(name, "/") + 1` separators |
| Source.KeepSegments | source.go:66-79 | the kept suffix has no more separators than asked |
| Source.TrimIsTrimmed | source.go:42-80 | the specification function meets the trimming property |
| Source.TrimmedDeterministic | source.go:42-80 | at most one suffix meets the trimming property |
| Source.TrimmedUnique | source.go:60-64 | the suffix after a given number of separators is unique |
| Source.TrimExample | source.go:50-58 | the documented example trims to `pkg/sub/file.go` |
| Source.ExampleTrimmed | source.go:50-58 | the documented example meets the trimming property |
| Events.Clone | eventstest/handler.go:24 | a clone carries the same message, source, time, debug flag and Args |
| Events.PartitionSizes | text/handler.go:63-81 | the errors and the other Args partition the Args |
| Events.ErrorsConcat | text/handler.go:77-81 | the errors of concatenated Args are concatenated in order |
| Events.NonErrorsConcat | text/handler.go:63-72 | the same for the Args that are not errors |
| Text.Buffer.Write | text/handler.go:95-99 | appends and returns `len(b)`, the number of bytes (one `char` per byte) |
| Text.Handler.constructor | text/handler.go:29-35 | prefix and output as given, the default time format, no location, Args off |
| Text.Handler.HandleEvent | text/handler.go:38-87 | the output receives exactly one write, the event's text |
| Text.Handler.WriteHead | text/handler.go:39-58 | prefix, optional time and ` - `, optional source and ` - `, message and newline |
| Text.WriteDetails | text/handler.go:60-83 | the Arg lines, then the errors heading and lines only when some Arg is an error |
| Text.WriteArgLines | text/handler.go:61-72 | one line per Arg that is not an error; reports whether an error was seen |
| Text.WriteArgLine | text/handler.go:67-70 | a tab, the name, `: `, the value and a newline |
| Text.WriteErrors | text/handler.go:77-81 | one line per error, in order |
| Text.ArgLinesEach | text/handler.go:63-72 | the Arg lines are the lines of the non-error Args, in order |
| Text.ErrorLinesEach | text/handler.go:77-81 | the error lines are the lines of the errors, in order |
| Text.DetailLines | text/handler.go:60-83 | with single-line values the details hold one line per non-error Arg plus, only if errors exist, one heading and one line per error |
| Text.ArgLinesCount | text/handler.go:63-72 | one newline per non-error Arg |
| Text.ErrorLinesCount | text/handler.go:77-81 | one newline per error |
| Text.TextEnds | text/handler.go:41-85 | the text starts with the prefix, is only the head without Args, and ends with a newline |
| Text.DetailsEnd | text/handler.go:60-83 | the details are empty or end with a newline |
| Text.HeadParts | text/handler.go:43-58 | no time and no source give `prefix + message + "\n"`; a nil location means Local |
| Ecslogs.Buffer.Reset | ecslogs/handler.go:245-247 | empties the buffer |
| Ecslogs.Buffer.Write | ecslogs/handler.go:249-253 | appends and returns `len(b)`, the number of bytes (one `char` per byte) |
| Ecslogs.Buffer.WriteByte | ecslogs/handler.go:255-258 | appends one byte |
| Ecslogs.MakeEventError | ecslogs/handler.go:96-117 | type name and message of the error; an errno only for errno causes; a stack only when the error has one |
| Ecslogs.FuncName | ecslogs/handler.go:190-199 | the function name after its last `/` |
| Ecslogs.MarshalStack | ecslogs/handler.go:167-188 | the stack is a JSON array of its frames, comma-separated |
| Ecslogs.NextData | ecslogs/handler.go:151-159 | skips exactly the error Args up to the next Arg that is not an error |
| Ecslogs.MarshalData | ecslogs/handler.go:123-149 | the data object holds one member per non-error Arg, in order, and is `{}` when there is none |
| Ecslogs.AppendMember | ecslogs/handler.go:137-142 | a comma before every member but the first |
| Ecslogs.Handler.constructor | ecslogs/handler.go:33-37 | the output as given, no program name, pid 0 |
| Ecslogs.Handler.HandleEvent | ecslogs/handler.go:40-72 | exactly one write per event: its JSON line; the formatter is left reset |
| Ecslogs.LevelRule | ecslogs/handler.go:44-54 | the level is ERROR if and only if an Arg is an error, else DEBUG exactly for debug events, else INFO |
| Ecslogs.ErrorEntriesOrder | ecslogs/handler.go:56-61 | one error entry per error Arg, in order |
| Ecslogs.DataEmpty | ecslogs/handler.go:123-149 | the data is `{}` if and only if every Arg is an error |
| Ecslogs.InfoOmission | ecslogs/handler.go:82-87 | the info object leaves out each empty field |
| EventsTest.Reporter.Errorf | eventstest/handler.go:55-61 | a failure is recorded |
| EventsTest.FirstDifference | eventstest/handler.go:49-53 | no difference if and only if Args, Debug and Message agree; fields are checked in that order |
| EventsTest.FirstMismatch | eventstest/handler.go:39-46 | the first index where the two lists differ, all earlier ones agreeing |
| EventsTest.AssertEqualEvent | eventstest/handler.go:49-53 | true if and only if the events agree; otherwise exactly one failure, for the first differing field |
| EventsTest.AssertEqualField | eventstest/handler.go:55-61 | one failure exactly when the values differ |
| EventsTest.Handler.HandleEvent | eventstest/handler.go:21-25 | a clone of the event is appended |
| EventsTest.Handler.AssertEvents | eventstest/handler.go:30-47 | the failures reported are those of `Failures(events, expected)` |
| EventsTest.FailuresEmpty | eventstest/handler.go:30-47 | no failure if and only if the counts match and every pair agrees on Args, Debug and Message |
| EventsTest.SameEventIgnores | eventstest/handler.go:28-29 | Source and Time play no part |
| EventsTest.FailuresStop | eventstest/handler.go:34-46 | at most two failures; a count mismatch is reported alone |
| EventsTest.RecordedMatch | eventstest/handler.go:30-47 | events differing only in Source and Time pass |
| LogWriter.TimeFormatShape | log/writer.go:122-137 | the layout is empty exactly without time bits, has microseconds with Lmicroseconds, and starts with the date with Ldate |
| LogWriter.TimeFormatBits | log/writer.go:122-123 | only Ldate, Ltime and Lmicroseconds choose the layout |
| LogWriter.Skip | log/writer.go:139-144 | the first byte is dropped exactly when it is `b` |
| LogWriter.ParseSplit | log/writer.go:146-153 | the text splits at the first `b`, or is all left |
| LogWriter.ParseAt | log/writer.go:146-153 | the split is at the first `b`, whatever follows |
| LogWriter.StripPrefix | log/writer.go:61-63 | the logger's prefix is removed when present |
| LogWriter.SplitTime | log/writer.go:69-73 | the timestamp is the layout's length in bytes (one `char` per byte) or the whole line, and the parts rejoin |
| LogWriter.CutLineFirst | log/writer.go:99-101 | the message stops before the first newline |
| LogWriter.SourceShape | log/writer.go:84-95 | the source slice fits exactly when the rest holds a `:`; it is `file:line` with one `:` |
| LogWriter.Writer.constructor | log/writer.go:31-37 | prefix, flags and handler as given |
| LogWriter.Writer.Write | log/writer.go:40-120 | an empty write does nothing; otherwise one event to the handler and `len(b)` in bytes, or the panic of the source slice |
| LogWriter.Writer.ReadEvent | log/writer.go:58-110 | the parsing steps compute `LineEvent` |
| LogWriter.Writer.ReadTime | log/writer.go:65-82 | the time step, in UTC or Local by LUTC |
| LogWriter.ReadMessage | log/writer.go:97-101 | the message step |
| LogWriter.ReadSource | log/writer.go:84-95 | the source step |
| LogWriter.MessageLine | log/writer.go:97-110 | the message has no newline, the event no Args and no debug flag, and a zero parsed time is replaced by now |
| LogWriter.NoFlags | log/writer.go:40-110 | without flags the event is the line after the prefix and up to the newline, with no source |
| HttpHeaders.FlattenHolds | httpevents/header.go:28-40 | the entries are exactly the (name, value) pairs of the names visited and not dropped |
| HttpHeaders.Insert | httpevents/header.go:43 | insertion keeps the entries as a multiset |
| HttpHeaders.SortByName | httpevents/header.go:43-78 | sorting is a permutation |
| HttpHeaders.InsertSorted | httpevents/header.go:76-78 | insertion keeps the list sorted by name |
| HttpHeaders.SortSorted | httpevents/header.go:43-78 | the result is sorted by name |
| HttpHeaders.JSONEmpty | httpevents/header.go:57-59 | an empty list is `{}` |
| HttpHeaders.HeaderList.Clear | httpevents/header.go:19-23 | every entry is zeroed, the length kept |
| HttpHeaders.HeaderList.Set | httpevents/header.go:25-44 | sorted by name, and a permutation of the entries of every header but `Authorization` |
| HttpHeaders.HeaderList.Clone | httpevents/header.go:50-54 | a new list with the same entries |
| HttpHeaders.HeaderList.MarshalJSON | httpevents/header.go:56-74 | `{` + the members joined by `,` + `}` |
| HttpHeaders.Collect | httpevents/header.go:28-40 | the loop collects the flattened entries |
| HttpHeaders.AppendEntries | httpevents/header.go:34-39 | one entry per value, in order |
| HttpHeaders.ListedContents | httpevents/header.go:25-44 | an entry is listed if and only if its name is not dropped and its value is among the header's values |
| HttpRequest.Snapshot | httpevents/request.go:68-86 | addresses default to `???` when empty; the other fields are copied |
| HttpRequest.Request.constructor | httpevents/request.go:163-169 | a new snapshot is empty |
| HttpRequest.Request.Reset | httpevents/request.go:68-104 | the snapshot, and the request's headers sorted by name: a permutation of exactly the request's (name, value) pairs, in one of the orders `sort.Sort` may give |
| HttpRequest.Request.Release | httpevents/request.go:44-66 | every string emptied, status 0, every header and argument slot zeroed, lengths kept |
| HttpRequest.Request.Log | httpevents/request.go:112-157 | the access log is emitted if and only if the status is 4xx or 5xx or debugging is on; the buffers keep the template and arguments. With the `%{name}` syntax request.go writes (`Braces`), the event has the logger's Args, unnamed values and the headers, and its message is the braced template rendered; with the corrected `%:name:` syntax (`Clauses`), every value is named |
| HttpRequest.LogAccess | httpevents/request.go:112-153 | the template in either syntax and the positional values; the event as in `Request.Log`, named values only under `Clauses` |
| HttpRequest.EmitAccess | httpevents/request.go:145-153 | the adjusted logger emits the unnamed `Braces` event or the named `Clauses` event, one frame deeper |
| HttpRequest.Compose | httpevents/request.go:113-137 | the template, in either syntax, and the values of the line's slots |
| HttpRequest.AppendOptional | httpevents/request.go:118-135 | an optional part adds its slot, written in the given syntax (` %{path}s` as written, ` %:path:s` corrected), only when not empty |
| HttpRequest.Adjusted | httpevents/request.go:145-146 | a copy of the logger with the call depth raised |
| HttpRequest.Emit | httpevents/request.go:148-153 | `Log` for 4xx and 5xx statuses, `Debug` otherwise |
| HttpRequest.LineArgs | httpevents/request.go:113-137 | the Args start with the addresses, host and method and end with status, status text and agent |
| HttpRequest.OptionalParts | httpevents/request.go:116-135 | path, query and fragment appear if and only if they are not empty |
| HttpRequest.PathPart | httpevents/request.go:118-121 | the path appears if and only if it is not empty |
| HttpRequest.QueryPart | httpevents/request.go:125-128 | the query appears if and only if it is not empty |
| HttpRequest.FragmentPart | httpevents/request.go:132-135 | the fragment appears if and only if it is not empty |
| AccessLog.Values | httpevents/request.go:113-137 | one value per slot, in order |
| AccessLog.NamedArgs | httpevents/request.go:113-141 | one named Arg per slot, in order |
| AccessLog.TemplateConcat | httpevents/request.go:114-136 | the template of two slot lists is the concatenation |
| AccessLog.NamedRewrite | logger.go:197-255 | the `%:name:` template rewrites to the plain one and names every value |
| AccessLog.WrittenRewrite | httpevents/request.go:114 | the `%{name}` template passes unchanged and every Arg is unnamed |
| HttpRequest.WrittenLineArgs | httpevents/request.go:114 | as written, the event gets no `local_address` Arg |
| HttpRequest.WrittenAccessEvent | httpevents/request.go:112-153 | the event a logger makes of the `%{name}` template holds only unnamed values between the logger's Args and the headers |
| HttpRequest.AccessEvent | httpevents/request.go:112-153 | the event a logger makes of the `%:name:` template holds every value under its slot's name |
| HttpHandler.Record | httpevents/handler.go:181-207 | the status and its text are stored and the access log is emitted with them |
| HttpHandler.ResponseWriter.Attach | httpevents/handler.go:34-39 | the writer wraps the response with the logger and the request's snapshot, its headers a sorted permutation of the request's |
| HttpHandler.ResponseWriter.Recycle | httpevents/handler.go:52-55 | the writer is detached and its snapshot released: strings emptied, status 0, every header and argument slot zeroed with the lengths kept, the log buffer kept |
| HttpHandler.ResponseWriter.Log | httpevents/handler.go:181-207 | logs once: with a logger it clears it and logs the status; without one nothing happens |
| HttpHandler.ResponseWriter.WriteHeader | httpevents/handler.go:153-165 | logs, then passes the status on only the first time |
| HttpHandler.ResponseWriter.Write | httpevents/handler.go:167-172 | a 200 status is set first when none was; the body is passed on, and the count and error returned are the wrapped writer's reply |
| HttpHandler.Serve | httpevents/handler.go:26-70 | the response gets one status (the first set, 200 when none, 500 on a panic before any) and the bodies; one access log with that status and a sorted permutation of the request's headers, written with the corrected `%:name:` template; the writer is recycled, its header list as long as the sorted list and every header and argument slot zeroed; a panic is reported |
| HttpHandler.Finish | httpevents/handler.go:46-68 | the deferred status of a panic or the final `WriteHeader(200)` |
| HttpHandler.Run | httpevents/handler.go:67 | the handler runs until it panics or ends |
| HttpHandler.SentCalls | httpevents/handler.go:46-68 | the calls the response receives, given where the handler stopped |
| HttpHandler.Handled | httpevents/handler.go:67 | the actions taken before a panic contain no panic |
| HttpHandler.ForwardedStep | httpevents/handler.go:153-172 | one more action adds its calls; the first status stays |
| HttpHandler.HandledPrefix | httpevents/handler.go:67 | the actions run are the prefix before the first panic |
| Mask.Switches | httpevents/mask.go:6-12 | each switch is one bit of its own, and All holds them |
| Mask.LoggerMaskBuilder.Exclude | httpevents/mask.go:24-28 | the bits of `m` are toggled; the other bits stay |
| Mask.LoggerMaskBuilder.Include | httpevents/mask.go:30-34 | the bits of `m` are set; the other bits stay |
| Mask.NewLoggerMaskBuilder | httpevents/mask.go:18-22 | a new builder builds All |
| Mask.IncludeIdempotent | httpevents/mask.go:30-34 | including twice is including once |
| Mask.ExcludeInvolutive | httpevents/mask.go:24-28 | excluding twice gives the mask back |
| Mask.ExcludeToggles | httpevents/mask.go:24-28 | excluding bits that are off turns them on; excluding bits that are on turns them off |
| Mask.ExcludeFromNew | httpevents/mask.go:18-34 | for any mask, from a new builder, exclude clears its bits and include restores All |
| Sanitizer.LogSanitizer.ReqHeaders | httpevents/sanitizer.go:33-36 | the request hook applied to the headers |
| Sanitizer.LogSanitizer.ResHeaders | httpevents/sanitizer.go:39-42 | the response hook applied to the headers |
| Sanitizer.LogSanitizer.WithQuerySanitizer | httpevents/sanitizer.go:44-47 | the query hook replaced, the others kept |
| Sanitizer.LogSanitizer.WithReqHeaderSanitizer | httpevents/sanitizer.go:49-52 | the request-header hook replaced, the others kept |
| Sanitizer.LogSanitizer.WithResHeaderSanitizer | httpevents/sanitizer.go:54-57 | the response-header hook replaced, the others kept |
| Sanitizer.LogSanitizer.WithPathSanitizer | httpevents/sanitizer.go:59-62 | the path hook replaced, the others kept |
| Sanitizer.CopyMap | httpevents/sanitizer.go:64-70 | the copy equals the original |
| Sanitizer.NewLogSanitizer | httpevents/sanitizer.go:21-28 | every hook is its default |
| Sanitizer.NewIsIdentity | httpevents/sanitizer.go:21-82 | a new sanitizer changes nothing |
| Sanitizer.BuildersCompose | httpevents/sanitizer.go:44-62 | the last builder of a hook wins; builders of different hooks commute |
| Signals.Error.Error | signal.go:105-107 | a signal error reads as its signal |
| Signals.IsSignal | signal.go:143-155 | true if and only if the error is a signal error and its signal is listed, or none are listed |
| Signals.IsTermination | signal.go:159-161 | true exactly for the SIGTERM error |
| Signals.IsInterruption | signal.go:165-167 | true exactly for the SIGINT error |
| Signals.CaughtWider | signal.go:143-155 | listing more signals catches more |
| Signals.TerminationIsNotInterruption | signal.go:159-167 | no error is both |
| Signals.FirstCancelWins | signal.go:133-138 | after any cancels, the first one's error is reported |
| Signals.StoredStays | signal.go:133-138 | a stored error is never replaced |
| Signals.SignalContext.constructor | signal.go:109-114 | no error, not done |
| Signals.SignalContext.Cancel | signal.go:133-138 | the first call stores the error and closes done; later calls change nothing |
| Signals.SignalContext.Err | signal.go:124-127 | the stored error, nil exactly while not done |

## Left out

- Concurrency is not modelled. This covers `sync.Pool` reuse, mutexes,
  `sync.Once` and atomic values: each method runs alone, and a pooled object
  is passed in explicitly.
- `fmt` rendering, `%q`/JSON quoting, time formatting and parsing,
  reflection type names and `http.StatusText` are not modelled. They are
  parameters (`render`, `Codec`, `Printer`, `Clock`, a status-text map),
  because their output is defined by the Go standard library.
- `runtime.Callers` and the frame lookup in `SourceForPC` (source.go:8-13)
  are not modelled. The caller is a frame taken from a stack parameter; it
  stands for what `fileLineFunc` returns. The trimming `SourceForPC` then
  applies is modelled by `Source.TrimGOPATH`. `event.go` is not part of this model:
  `Event`, `Args` and `Clone` are modelled from how the core uses them.
- `Logging.Logger.With`: a nil and an empty Args list are the same value.
- `EventsTest.AssertEqualField`: `reflect.DeepEqual` tells a nil Args list
  from an empty one, and `==` on sequences does not. A recorded event with
  nil Args and an expected one with `Args{}` fail in Go and pass in the
  model.
- `Ecslogs.Handler.HandleEvent`: the JSON encoders are total functions in
  the model, so every event gives a full line. In Go, `encoding/json`
  rejects some values (a channel, a function, NaN, a time past year 9999).
  For such a value the inner encoder writes nothing, the key's `:` is
  truncated, the outer encoder rejects the result, and the output gets an
  empty write. That path is not modelled.
- `DefaultHandler`, which `log/writer.go:55` falls back to for a nil
  handler, is not modelled: a writer always has a handler.
- Integer widths are not modelled. Go `int` is an unbounded `int`;
  `LoggerMask` is a `bv32`, as in the source.
- `HttpHeaders.SortByName` is one of the orders `sort.Sort` may produce.
  `Request.Reset` computes it, but the contracts of `Request.Reset`,
  `ResponseWriter.Attach` and `Serve` state only sortedness and
  permutation (`HttpRequest.Listing`), which is all the unstable sort
  promises. `HttpHeaders.HeaderList.Set` likewise.
- `httpevents/handler.go` calls a four-argument `request.log`
  (lines 201 and 204) and reads a `reqHeaders` field (line 155). Neither
  exists in `request.go`. The model:
  - uses the two-argument `log` of `request.go:112`, which logs the
    request's headers;
  - leaves out the `SanitizeHeaders`/`MutateRequest` hooks and the
    `fmt.Println`/`println` debugging output.
- `NewHandlerWithFormatting`, `copyHeaders`, `Hijack` and
  `headerList.String` are not modelled. Status 101 on a hijack would go
  through the same `log` as any other status.
- `HttpHandler.Serve`, `HttpHandler.Record` and the `ResponseWriter`
  methods log with the corrected `%:name:` template (see Findings). With
  the `%{name}` template request.go writes, the event they emit is the one
  `HttpRequest.Request.Log` states for `Braces`: unnamed values, and a
  message with the braces in it.
- The wrapped HTTP handler is a list of actions: set a status, write a
  body, or panic. A panic is reported as an outcome, not raised again.
- `Sanitizer.CopyMap`: the copy shares its value slices with the original
  in Go. As values, the model cannot express that aliasing.
- `Mask.LoggerMaskBuilder.Exclude`, `Mask.LoggerMaskBuilder.Include`: these
  are declared to return `*LoggerMaskBuilder` but return the value `b`.
  They are modelled as returning the modified copy.
- Signals carry their Linux numbers, and their `String()` text is data.
  Not modelled:
  - the context's `Deadline`, `Done` and `Value`, which only delegate;
  - the goroutines of `WithSignals`/`SignalWith`.
- Where the package's prose and the code disagree, the model follows the
  code:
  - a lone trailing `%` still takes an argument;
  - an unclosed `%:name` still takes an argument;
  - the `%{name}` verbs of `request.go` are not recognised by
    `appendFormat`. `HttpRequest.Request.Log` models both that template
    and the corrected one (see Findings).

## Findings

| source | as written | input that shows it | evidently intended | confidence | as-written member | corrected member |
|---|---|---|---|---|---|---|
| httpevents/request.go:114-136 | the access-log template names its verbs `%{local_address}s`, `%{status}d` and so on, a syntax `appendFormat` (logger.go:213-243) does not recognise; the braces reach printf and every value is logged unnamed | any request, e.g. one with local address `1.2.3.4:80`: the event has no Arg `local_address` | the `%:name:` syntax, so each value is logged under its name | not executed | AccessLog.WrittenRewrite | AccessLog.NamedRewrite |
| httpevents/request.go:112-153 | the event's Args hold the logger's Args, unnamed values and the headers | as above | the Args `local_address`, `remote_address`, `host`, `method`, …, `status` | not executed | HttpRequest.WrittenLineArgs | HttpRequest.LogAccess |
