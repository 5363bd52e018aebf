/** The `io.Writer` that package log installs under the standard library's
    logger (log/writer.go): each line the logger writes is split back into
    its prefix, timestamp, `file:line` source and message, and becomes one
    event. */
module LogWriter {
  import opened Events
  import opened Strings
  import opened Handlers

  /** The flag bits of Go's standard `log` package (log/log.go:100-106). */
  type Flags = bv64

  const Ldate: Flags := 1
  const Ltime: Flags := 2
  const Lmicroseconds: Flags := 4
  const Llongfile: Flags := 8
  const Lshortfile: Flags := 16
  const LUTC: Flags := 32

  datatype Zone = UTC | Local

  /** `time.ParseInLocation`, which gives the zero time on error, and
      `time.Now()`. */
  datatype Clock = Clock(parse: (string, string, Zone) -> Time, now: Time)

  /** What a `Write` call comes to: the byte count it returns, or the panic
      of a source slice that runs past the end of the line. */
  datatype WriteResult = Wrote(n: nat) | SliceOutOfRange

  /** The time layout the standard logger writes for the given flags. */
  function TimeFormat(flags: Flags): string
  {
    var bits := flags & (Ldate | Ltime | Lmicroseconds);
    if bits == Ldate | Ltime | Lmicroseconds || bits == Ldate | Lmicroseconds then "2006/01/02 15:04:05.999999"
    else if bits == Ldate | Ltime then "2006/01/02 15:04:05"
    else if bits == Ldate then "2006/01/02"
    else if bits == Ltime | Lmicroseconds || bits == Lmicroseconds then "15:04:05.999999"
    else if bits == Ltime then "15:04:05"
    else ""
  }

  /** The layout is empty exactly when none of the time bits is set, has
      microseconds whenever Lmicroseconds is set, and starts with the date
      whenever Ldate is set. */
  lemma TimeFormatShape(flags: Flags)
    ensures var r := TimeFormat(flags);
            (r == "" <==> flags & (Ldate | Ltime | Lmicroseconds) == 0) &&
            (flags & Lmicroseconds != 0 ==> |r| >= 7 && r[|r| - 7..] == ".999999") &&
            (flags & Ldate != 0 ==> |r| >= 10 && r[..10] == "2006/01/02")
  {
  }

  /** Only the Ldate, Ltime and Lmicroseconds bits choose the layout. */
  lemma TimeFormatBits(f1: Flags, f2: Flags)
    requires f1 & (Ldate | Ltime | Lmicroseconds) == f2 & (Ldate | Ltime | Lmicroseconds)
    ensures TimeFormat(f1) == TimeFormat(f2)
  {
  }

  /** skip: drops the first byte when it is `b`. */
  function Skip(s: string, b: char): (r: string)
    ensures |s| != 0 && s[0] == b ==> r == s[1..]
    ensures |s| == 0 || s[0] != b ==> r == s
  {
    if |s| != 0 && s[0] == b then s[1..] else s
  }

  /** parse: the text before the first `b` and the text after it. */
  function Parse(s: string, b: char): (string, string)
  {
    var index := IndexByte(s, b);
    if index >= 0 then (s[..index], s[index + 1..]) else (s, "")
  }

  /** What parse promises: when `b` occurs, `s` is the left part, `b` and
      the right part, and the left part holds no `b`; otherwise the left
      part is all of `s`. */
  lemma ParseSplit(s: string, b: char)
    ensures var r := Parse(s, b);
            (b in s ==> s == r.0 + [b] + r.1 && b !in r.0) &&
            (b !in s ==> r.0 == s && r.1 == "")
  {
    var index := IndexByte(s, b);
    IndexByteFirst(s, b);
    if index >= 0 {
      assert s == s[..index] + [b] + s[index + 1..];
    }
  }

  /** The line without the logger's prefix, when it starts with it. */
  function StripPrefix(s: string, prefix: string): (r: string)
    ensures HasPrefix(s, prefix) ==> prefix + r == s
    ensures !HasPrefix(s, prefix) ==> r == s
  {
    if HasPrefix(s, prefix) then s[|prefix|..] else s
  }

  /** The timestamp, `n` bytes long or the whole line if that is shorter,
      and what follows it. */
  function SplitTime(s: string, n: nat): (r: (string, string))
    ensures r.0 + r.1 == s
    ensures |r.0| == if |s| >= n then n else |s|
  {
    if |s| >= n then (s[..n], s[n..]) else (s, "")
  }

  /** The `file:line` source at the start of `s` (after one optional space)
      and the rest, or None when the slice of the source would run past
      the end of the line. */
  function SplitSource(s: string): (r: Option<(string, string)>)
  {
    var base := Skip(s, ' ');
    var first := Parse(base, ':');
    var second := Parse(first.1, ':');
    if |first.0| + |second.0| + 1 > |base| then None
    else Some((base[..|first.0| + |second.0| + 1], second.1))
  }

  /** The message: up to the first line break. */
  function CutLine(s: string): string
  {
    var n := IndexByte(s, '\n');
    if n >= 0 then s[..n] else s
  }

  /** The message is the text before the first line break, or all of it. */
  lemma CutLineFirst(s: string)
    ensures var r := CutLine(s);
            |r| <= |s| && s[..|r|] == r && '\n' !in r && ('\n' !in s ==> r == s)
  {
    IndexByteFirst(s, '\n');
  }

  /** The zone the timestamp is read in. */
  function ZoneOf(flags: Flags): Zone
  {
    if flags & LUTC != 0 then UTC else Local
  }

  /** The time read from the start of the line, or the zero time when the
      flags ask for none, and the rest of the line. */
  function TimeStage(flags: Flags, s: string, clock: Clock): (Time, string)
  {
    var format := TimeFormat(flags);
    if |format| == 0 then (ZeroTime, s)
    else
      var (ts, rest) := SplitTime(s, |format|);
      (clock.parse(format, ts, ZoneOf(flags)), rest)
  }

  /** The source, empty when the flags ask for none, and the rest of the
      line; None when its slice would panic. */
  function SourceStage(flags: Flags, s: string): Option<(string, string)>
  {
    if flags & (Llongfile | Lshortfile) != 0 then SplitSource(s) else Some(("", s))
  }

  /** The event that one line of the standard logger becomes, or None when
      writing it panics. */
  function LineEvent(prefix: string, flags: Flags, b: string, clock: Clock): Option<Event>
  {
    var (t, s) := TimeStage(flags, StripPrefix(b, prefix), clock);
    var source := SourceStage(flags, s);
    if source.None? then None
    else Some(Event(CutLine(Skip(source.value.1, ' ')), source.value.0, if t == ZeroTime then clock.now else t, false, []))
  }

  class Writer {
    var handler: Handler
    var prefix: string
    var flags: Flags

    /** NewWriter. */
    constructor (prefix: string, flags: Flags, handler: Handler)
      ensures this.prefix == prefix && this.flags == flags && this.handler == handler
    {
      this.handler := handler;
      this.prefix := prefix;
      this.flags := flags;
    }

    /** Write: parses one line of the standard logger and hands the event
        to the handler. */
    method Write(b: string, trace: Trace, clock: Clock) returns (r: WriteResult)
      modifies trace
      ensures |b| == 0 ==> r == Wrote(0) && trace.calls == old(trace.calls)
      ensures |b| != 0 && LineEvent(prefix, flags, b, clock).Some? ==>
                r == Wrote(|b|) && trace.calls == old(trace.calls) + Effect(handler, LineEvent(prefix, flags, b, clock).value)
      ensures |b| != 0 && LineEvent(prefix, flags, b, clock).None? ==>
                r == SliceOutOfRange && trace.calls == old(trace.calls)
    {
      if |b| == 0 {
        return Wrote(0);
      }

      var event := ReadEvent(b, clock);
      if event.None? {
        return SliceOutOfRange;
      }
      trace.HandleEvent(handler, event.value);
      return Wrote(|b|);
    }

    /** The parsing steps of Write. */
    method ReadEvent(b: string, clock: Clock) returns (event: Option<Event>)
      ensures event == LineEvent(prefix, flags, b, clock)
    {
      ghost var spec := LineEvent(prefix, flags, b, clock);
      var s := b;
      var src := "";

      if HasPrefix(s, prefix) {
        s := s[|prefix|..];
      }
      assert s == StripPrefix(b, prefix);

      var t;
      t, s := ReadTime(s, clock);
      ghost var stamped := s;

      if flags & (Llongfile | Lshortfile) != 0 {
        var source := ReadSource(s);
        if source.None? {
          return None;
        }
        src, s := source.value.0, source.value.1;
      }
      assert SourceStage(flags, stamped) == Some((src, s));

      s := ReadMessage(s);

      if t == ZeroTime {
        t := clock.now;
      }

      event := Some(Event(s, src, t, false, []));
      assert spec == event;
    }

    /** The timestamp step of Write. */
    method ReadTime(s: string, clock: Clock) returns (t: Time, rest: string)
      ensures (t, rest) == TimeStage(flags, s, clock)
    {
      t, rest := ZeroTime, s;
      var format := TimeFormat(flags);
      if |format| != 0 {
        var ts;
        if |rest| >= |format| {
          ts, rest := rest[..|format|], rest[|format|..];
        } else {
          ts, rest := rest, "";
        }
        var tz := if flags & LUTC != 0 then UTC else Local;
        t := clock.parse(format, ts, tz);
      }
    }
  }

  /** The message step of Write. */
  method ReadMessage(s: string) returns (message: string)
    ensures message == CutLine(Skip(s, ' '))
  {
    message := Skip(s, ' ');
    var n := IndexByte(message, '\n');
    if n >= 0 {
      message := message[..n];
    }
  }

  /** The `file:line` step of Write. */
  method ReadSource(s: string) returns (r: Option<(string, string)>)
    ensures r == SplitSource(s)
  {
    var base := Skip(s, ' ');
    var file, rest := Parse(base, ':').0, Parse(base, ':').1;
    var line, rest2 := Parse(rest, ':').0, Parse(rest, ':').1;
    if |file| + |line| + 1 > |base| {
      return None;
    }
    return Some((base[..|file| + |line| + 1], rest2));
  }

  /** The source slice fits exactly when the text after the optional space
      holds a ':'; it is then that text up to the second ':' (or to the
      end), holding exactly one ':'. */
  lemma SourceShape(s: string)
    ensures SplitSource(s).Some? <==> ':' in Skip(s, ' ')
    ensures SplitSource(s).Some? ==>
              var base, src := Skip(s, ' '), SplitSource(s).value.0;
              |src| <= |base| && base[..|src|] == src && Count(src, ':') == 1 &&
              (|src| == |base| || base[|src|] == ':')
  {
    var base := Skip(s, ' ');
    var file, rest := Parse(base, ':').0, Parse(base, ':').1;
    var line, rest2 := Parse(rest, ':').0, Parse(rest, ':').1;
    ParseSplit(base, ':');
    ParseSplit(rest, ':');
    if ':' in base {
      SourceSlice(base, file, rest, line, rest2);
      assert SplitSource(s).Some?;
      assert SplitSource(s).value.0 == base[..|file| + |line| + 1];
    } else {
      assert |file| == |base|;
    }
  }

  /** The slice of `file:line` inside `file:rest`, where `rest` splits
      at its own first ':' into `line` and `rest2`, if it has one. */
  lemma SourceSlice(base: string, file: string, rest: string, line: string, rest2: string)
    requires base == file + [':'] + rest && ':' !in file
    requires ':' in rest ==> rest == line + [':'] + rest2 && ':' !in line
    requires ':' !in rest ==> line == rest && rest2 == ""
    ensures |file| + |line| + 1 <= |base|
    ensures var src := base[..|file| + |line| + 1];
            src == file + [':'] + line && Count(src, ':') == 1 && (|src| == |base| || base[|src|] == ':')
  {
    if ':' in rest {
      assert base == (file + [':'] + line) + ([':'] + rest2);
    }
    OneColon(file, line);
  }

  lemma OneColon(file: string, line: string)
    requires ':' !in file && ':' !in line
    ensures Count(file + [':'] + line, ':') == 1
  {
    CountNone(file, ':');
    CountNone(line, ':');
    CountConcat(file + [':'], line, ':');
    assert (file + [':'])[..|file|] == file;
  }

  /** The message holds no line break, and the event carries no Args and is
      not a debug event; its time is zero only when the clock's is. */
  lemma MessageLine(prefix: string, flags: Flags, b: string, clock: Clock)
    requires LineEvent(prefix, flags, b, clock).Some?
    ensures var e := LineEvent(prefix, flags, b, clock).value;
            '\n' !in e.message && e.args == [] && !e.debug && (e.time == ZeroTime ==> clock.now == ZeroTime)
  {
    var e := LineEvent(prefix, flags, b, clock).value;
    var (t, s) := TimeStage(flags, StripPrefix(b, prefix), clock);
    CutLineFirst(Skip(SourceStage(flags, s).value.1, ' '));
  }

  /** With no flags, the event's message is the line without the prefix and
      up to its line break, and it has no source. */
  lemma NoFlags(prefix: string, b: string, clock: Clock)
    ensures LineEvent(prefix, 0, b, clock) ==
              Some(Event(CutLine(Skip(StripPrefix(b, prefix), ' ')), "", clock.now, false, []))
  {
  }

  /** The first `b` of a text is found where it is. */
  lemma IndexAt(left: string, right: string, b: char)
    requires b !in left
    ensures IndexByte(left + [b] + right, b) == |left|
  {
    var s := left + [b] + right;
    IndexByteFirst(s, b);
    assert s[|left|] == b;
    forall j | 0 <= j < |left|
      ensures s[j] != b
    {
      assert s[j] == left[j];
    }
  }

  /** parse splits at the first `b`, whatever follows it. */
  lemma ParseAt(left: string, right: string, b: char)
    requires b !in left
    ensures Parse(left + [b] + right, b) == (left, right)
  {
    IndexAt(left, right, b);
    var s := left + [b] + right;
    assert s[..|left|] == left && s[|left| + 1..] == right;
  }
}
