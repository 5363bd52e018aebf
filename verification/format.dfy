/** The named-verb template rewriter of logger.go (`appendFormat`).

    A template is printf-style text. Every `%` not followed by `%` opens a
    verb; the verb's characters are copied up to and including the first
    ASCII letter, and a `:name:` clause inside it is removed from the output
    and names the argument the verb consumes. The template's pieces are
    specified by a character-at-a-time lexer (`Lex`); the imperative
    rewriter `AppendFormat`, which jumps from '%' to '%' and from ':' to
    ':', is proved to produce exactly the output and the arguments of those
    pieces. */
module Format {
  import opened Events
  import opened Strings

  /** The shared value substituted for a verb that has no positional
      argument left. */
  const Missing: Value := Str("MISSING")

  predicate IsLetter(c: char)
  {
    ('a' <= c <= 'z') || ('A' <= c <= 'Z')
  }

  /** One piece of a template. */
  datatype Piece =
    | Char(c: char)                                  // a character other than '%', copied as is
    | Escape                                         // "%%", copied as is
    | Verb(name: string, spec: string)               // a verb: writes '%' + spec, consumes a value under `name`

  /** Where the lexer is: in plain text; inside a verb, with the name and
      the output text gathered so far; or inside a `:name:` clause of such a
      verb, with the clause text read so far. */
  datatype Mode =
    | InText
    | InVerb(key: string, spec: string)
    | InName(key: string, spec: string, name: string)

  /** The pieces of `s` from position `i` on, in mode `m`. */
  function LexFrom(s: string, i: nat, m: Mode): seq<Piece>
    requires i <= |s|
    decreases |s| - i
  {
    match m
    case InText =>
      if i == |s| then []
      else if s[i] != '%' then [Char(s[i])] + LexFrom(s, i + 1, InText)
      else if i + 1 < |s| && s[i + 1] == '%' then [Escape] + LexFrom(s, i + 2, InText)
      else LexFrom(s, i + 1, InVerb("", ""))
    case InVerb(key, spec) =>
      if i == |s| then [Verb(key, spec)]
      else if s[i] == ':' then LexFrom(s, i + 1, InName(key, spec, ""))
      else if IsLetter(s[i]) then [Verb(key, spec + [s[i]])] + LexFrom(s, i + 1, InText)
      else LexFrom(s, i + 1, InVerb(key, spec + [s[i]]))
    case InName(key, spec, name) =>
      // an unclosed clause is copied, ':' included, and ends the template
      if i == |s| then [Verb(key, spec + [':'] + name)]
      else if s[i] == ':' then LexFrom(s, i + 1, InVerb(name, spec))
      else LexFrom(s, i + 1, InName(key, spec, name + [s[i]]))
  }

  /** The pieces of a template, left to right. */
  function Lex(t: string): seq<Piece>
  {
    LexFrom(t, 0, InText)
  }

  /** What a piece writes to the rewritten template. */
  function Output(p: Piece): string
  {
    match p
    case Char(c) => [c]
    case Escape => "%%"
    case Verb(_, spec) => "%" + spec
  }

  function FormatOf(ps: seq<Piece>): string
  {
    if ps == [] then "" else Output(ps[0]) + FormatOf(ps[1..])
  }

  function VerbCount(ps: seq<Piece>): nat
  {
    if ps == [] then 0 else (if ps[0].Verb? then 1 else 0) + VerbCount(ps[1..])
  }

  /** The next positional value, or `Missing` once they have run out. */
  function Next(vals: seq<Value>): Value
  {
    if vals == [] then Missing else vals[0]
  }

  function Rest(vals: seq<Value>): seq<Value>
  {
    if vals == [] then [] else vals[1..]
  }

  /** The arguments the verbs of `ps` consume from `vals`, in verb order. */
  function ArgsOf(ps: seq<Piece>, vals: seq<Value>): seq<Arg>
  {
    if ps == [] then []
    else if ps[0].Verb? then [Arg(ps[0].name, Next(vals))] + ArgsOf(ps[1..], Rest(vals))
    else ArgsOf(ps[1..], vals)
  }

  /** The result of rewriting a template: a positional format and the
      named arguments. */
  datatype Rewritten = Rewritten(format: string, args: seq<Arg>)

  function Rewrite(template: string, vals: seq<Value>): Rewritten
  {
    var ps := Lex(template);
    Rewritten(FormatOf(ps), ArgsOf(ps, vals))
  }

  /** What a ':' inside a verb starts: a closed `:name:` clause whose
      closing ':' is at `end - 1`, or an unclosed one, whose text from the
      ':' on is copied. */
  datatype Clause = Closed(name: string, end: nat) | Unclosed(text: string)

  function ScanClause(s: string, i: nat): (c: Clause)
    requires i < |s| && s[i] == ':'
    ensures c.Closed? ==> i + 2 <= c.end <= |s| && s[c.end - 1] == ':' && c.name == s[i + 1..c.end - 1]
    ensures c.Unclosed? ==> c.text == s[i..]
  {
    var j := IndexFrom(s, i + 1, ':');
    if j < 0 then Unclosed(s[i..]) else Closed(s[i + 1..j], j + 1)
  }

  // ---------------------------------------------------------------------
  // Steps of the lexer that the rewriter takes in one go.

  lemma {:induction false} FormatConcat(a: seq<Piece>, b: seq<Piece>)
    ensures FormatOf(a + b) == FormatOf(a) + FormatOf(b)
    decreases |a|
  {
    if a == [] {
      assert a + b == b;
    } else {
      assert (a + b)[1..] == a[1..] + b;
      FormatConcat(a[1..], b);
    }
  }

  lemma {:induction false} ArgsConcat(a: seq<Piece>, b: seq<Piece>, vals: seq<Value>)
    ensures ArgsOf(a + b, vals) == ArgsOf(a, vals) + ArgsOf(b, Drop(vals, VerbCount(a)))
    decreases |a|
  {
    if a == [] {
      assert a + b == b;
    } else {
      assert (a + b)[1..] == a[1..] + b;
      if a[0].Verb? {
        ArgsConcat(a[1..], b, Rest(vals));
        DropRest(vals, VerbCount(a[1..]));
      } else {
        ArgsConcat(a[1..], b, vals);
      }
    }
  }

  /** The values left after `k` verbs have consumed theirs. */
  function Drop(vals: seq<Value>, k: nat): (r: seq<Value>)
    ensures |r| == if k <= |vals| then |vals| - k else 0
  {
    if k <= |vals| then vals[k..] else []
  }

  lemma DropRest(vals: seq<Value>, k: nat)
    ensures Drop(Rest(vals), k) == Drop(vals, k + 1)
  {
  }

  /** Each character of `t` as a piece of its own. */
  function Chars(t: string): (ps: seq<Piece>)
    ensures |ps| == |t|
  {
    if t == [] then [] else [Char(t[0])] + Chars(t[1..])
  }

  lemma {:induction false} CharsText(t: string, vals: seq<Value>)
    ensures FormatOf(Chars(t)) == t
    ensures ArgsOf(Chars(t), vals) == []
    ensures VerbCount(Chars(t)) == 0
  {
    if t != [] {
      CharsText(t[1..], vals);
      assert Chars(t)[1..] == Chars(t[1..]);
    }
  }

  /** A run of characters other than '%' lexes one piece per character. */
  lemma {:induction false} LiteralLex(s: string, i: nat, k: nat)
    requires i <= k <= |s|
    requires forall j :: i <= j < k ==> s[j] != '%'
    ensures LexFrom(s, i, InText) == Chars(s[i..k]) + LexFrom(s, k, InText)
    decreases k - i
  {
    if i < k {
      LiteralLex(s, i + 1, k);
      assert s[i..k][1..] == s[i + 1..k];
    }
  }

  /** The text up to the next '%' (or to the end) is copied ... */
  lemma RunFormat(s: string, i: nat)
    requires i <= |s|
    ensures var p := IndexFrom(s, i, '%');
            var k := if p < 0 then |s| else p;
            FormatOf(LexFrom(s, i, InText)) == s[i..k] + FormatOf(LexFrom(s, k, InText))
  {
    var p := IndexFrom(s, i, '%');
    var k := if p < 0 then |s| else p;
    IndexFromFirst(s, i, '%');
    LiteralLex(s, i, k);
    CharsText(s[i..k], []);
    FormatConcat(Chars(s[i..k]), LexFrom(s, k, InText));
  }

  /** ... and consumes nothing. */
  lemma RunArgs(s: string, i: nat, vals: seq<Value>)
    requires i <= |s|
    ensures var p := IndexFrom(s, i, '%');
            var k := if p < 0 then |s| else p;
            ArgsOf(LexFrom(s, i, InText), vals) == ArgsOf(LexFrom(s, k, InText), vals)
  {
    var p := IndexFrom(s, i, '%');
    var k := if p < 0 then |s| else p;
    IndexFromFirst(s, i, '%');
    LiteralLex(s, i, k);
    CharsText(s[i..k], vals);
    ArgsConcat(Chars(s[i..k]), LexFrom(s, k, InText), vals);
  }

  /** The characters of a `:name:` clause before its closing ':' are
      gathered as the name. */
  lemma {:induction false} NameRun(s: string, i: nat, m: nat, key: string, spec: string)
    requires i < m <= |s|
    requires forall q :: i < q < m ==> s[q] != ':'
    ensures LexFrom(s, i + 1, InName(key, spec, "")) == LexFrom(s, m, InName(key, spec, s[i + 1..m]))
    decreases m - i
  {
    if i + 1 < m {
      NameRun(s, i, m - 1, key, spec);
      assert s[i + 1..m - 1] + [s[m - 1]] == s[i + 1..m];
    }
  }

  /** A ':' inside a verb that opens a closed clause renames the verb's
      argument and resumes the verb after the clause ... */
  lemma ClosedStep(s: string, i: nat, key: string, spec: string)
    requires i < |s| && s[i] == ':' && ScanClause(s, i).Closed?
    ensures var c := ScanClause(s, i);
            LexFrom(s, i, InVerb(key, spec)) == LexFrom(s, c.end, InVerb(c.name, spec))
  {
    var j := IndexFrom(s, i + 1, ':');
    IndexFromFirst(s, i + 1, ':');
    NameRun(s, i, j, key, spec);
  }

  /** ... and one that opens an unclosed clause is copied, ':' included,
      and ends the verb at the end of the template. */
  lemma UnclosedStep(s: string, i: nat, key: string, spec: string)
    requires i < |s| && s[i] == ':' && ScanClause(s, i).Unclosed?
    ensures LexFrom(s, i, InVerb(key, spec)) == [Verb(key, spec + s[i..])]
  {
    IndexFromFirst(s, i + 1, ':');
    NameRun(s, i, |s|, key, spec);
    var name := s[i + 1..|s|];
    assert [':'] + name == s[i..];
    calc {
      LexFrom(s, i, InVerb(key, spec));
      LexFrom(s, i + 1, InName(key, spec, ""));
      LexFrom(s, |s|, InName(key, spec, name));
      [Verb(key, spec + [':'] + name)];
      { assert spec + [':'] + name == spec + ([':'] + name); }
      [Verb(key, spec + s[i..])];
    }
  }

  /** A "%%" is one piece, which copies itself ... */
  lemma EscapeFormat(s: string, p: nat)
    requires p + 1 < |s| && s[p] == '%' && s[p + 1] == '%'
    ensures FormatOf(LexFrom(s, p, InText)) == "%" + ['%'] + FormatOf(LexFrom(s, p + 2, InText))
  {
    var rest := LexFrom(s, p + 2, InText);
    assert ([Escape] + rest)[1..] == rest;
    assert "%%" == "%" + ['%'];
  }

  /** ... and consumes nothing. */
  lemma EscapeArgs(s: string, p: nat, vals: seq<Value>)
    requires p + 1 < |s| && s[p] == '%' && s[p + 1] == '%'
    ensures ArgsOf(LexFrom(s, p, InText), vals) == ArgsOf(LexFrom(s, p + 2, InText), vals)
  {
    var rest := LexFrom(s, p + 2, InText);
    assert ([Escape] + rest)[1..] == rest;
  }

  /** Any other '%' opens a verb. */
  lemma VerbOpens(s: string, p: nat)
    requires p < |s| && s[p] == '%' && !(p + 1 < |s| && s[p + 1] == '%')
    ensures LexFrom(s, p, InText) == LexFrom(s, p + 1, InVerb("", ""))
  {
  }

  /** A verb writes '%' and its verb text ... */
  lemma VerbFormat(key: string, spec: string, rest: seq<Piece>)
    ensures FormatOf([Verb(key, spec)] + rest) == "%" + spec + FormatOf(rest)
  {
    assert ([Verb(key, spec)] + rest)[1..] == rest;
  }

  /** ... and consumes the next value under its name. */
  lemma VerbArgs(key: string, spec: string, rest: seq<Piece>, vals: seq<Value>)
    ensures ArgsOf([Verb(key, spec)] + rest, vals) == [Arg(key, Next(vals))] + ArgsOf(rest, Rest(vals))
  {
    assert ([Verb(key, spec)] + rest)[1..] == rest;
  }

  /** One turn of the rewriter's outer loop that ends at a "%%": it
      copies the text up to and including both '%' ... */
  lemma EscapeTurn(s: string, i: nat, f: string)
    requires i <= |s|
    requires var p := IndexFrom(s, i, '%');
             p >= 0 && p + 1 < |s| && s[p + 1] == '%'
    ensures var p := IndexFrom(s, i, '%');
            f + s[i..p + 1] + ['%'] + FormatOf(LexFrom(s, p + 2, InText)) == f + FormatOf(LexFrom(s, i, InText))
  {
    var p := IndexFrom(s, i, '%');
    RunFormat(s, i);
    EscapeFormat(s, p);
    SliceSnoc(s, i, p);
    Regroup(f, s[i..p], ['%'], FormatOf(LexFrom(s, p + 2, InText)), FormatOf(LexFrom(s, p, InText)), FormatOf(LexFrom(s, i, InText)));
  }

  /** ... and consumes nothing. */
  lemma EscapeTurnArgs(s: string, i: nat, vals: seq<Value>)
    requires i <= |s|
    requires var p := IndexFrom(s, i, '%');
             p >= 0 && p + 1 < |s| && s[p + 1] == '%'
    ensures var p := IndexFrom(s, i, '%');
            ArgsOf(LexFrom(s, p + 2, InText), vals) == ArgsOf(LexFrom(s, i, InText), vals)
  {
    RunArgs(s, i, vals);
    EscapeArgs(s, IndexFrom(s, i, '%'), vals);
  }

  /** What the verb opened by the '%' at `p` writes. */
  lemma VerbFormatAt(s: string, p: nat, key: string, spec: string, end: nat)
    requires p < end <= |s|
    requires LexFrom(s, p, InText) == [Verb(key, spec)] + LexFrom(s, end, InText)
    ensures FormatOf(LexFrom(s, p, InText)) == "%" + spec + FormatOf(LexFrom(s, end, InText))
  {
    VerbFormat(key, spec, LexFrom(s, end, InText));
  }

  /** One turn of the rewriter's outer loop that ends with a verb: it
      copies the text up to and including the '%' and the verb text ... */
  lemma VerbTurn(s: string, i: nat, key: string, spec: string, end: nat, f: string)
    requires i <= |s|
    requires var p := IndexFrom(s, i, '%');
             p >= 0 && p < end <= |s| &&
             LexFrom(s, p, InText) == [Verb(key, spec)] + LexFrom(s, end, InText)
    ensures var p := IndexFrom(s, i, '%');
            f + s[i..p + 1] + spec + FormatOf(LexFrom(s, end, InText)) == f + FormatOf(LexFrom(s, i, InText))
  {
    var p := IndexFrom(s, i, '%');
    RunFormat(s, i);
    VerbFormatAt(s, p, key, spec, end);
    SliceSnoc(s, i, p);
    Regroup(f, s[i..p], spec, FormatOf(LexFrom(s, end, InText)), FormatOf(LexFrom(s, p, InText)), FormatOf(LexFrom(s, i, InText)));
  }

  /** ... and consumes the next value under the verb's name. */
  lemma VerbTurnArgs(s: string, i: nat, vals: seq<Value>, key: string, spec: string, end: nat, a: seq<Arg>)
    requires i <= |s|
    requires var p := IndexFrom(s, i, '%');
             p >= 0 && p < end <= |s| &&
             LexFrom(s, p, InText) == [Verb(key, spec)] + LexFrom(s, end, InText)
    ensures a + [Arg(key, Next(vals))] + ArgsOf(LexFrom(s, end, InText), Rest(vals)) == a + ArgsOf(LexFrom(s, i, InText), vals)
  {
    var p := IndexFrom(s, i, '%');
    RunArgs(s, i, vals);
    VerbArgs(key, spec, LexFrom(s, end, InText), vals);
  }

  lemma SliceSnoc(s: string, i: nat, p: nat)
    requires i <= p < |s|
    ensures s[i..p + 1] == s[i..p] + [s[p]]
  {
  }

  /** Regrouping of the rewriter's appends: the text up to a '%' and the
      output of the piece the '%' starts. */
  lemma Regroup(f: string, lit: string, spec: string, rest: string, piece: string, run: string)
    requires piece == "%" + spec + rest && run == lit + piece
    ensures f + (lit + "%") + spec + rest == f + run
  {
  }

  // ---------------------------------------------------------------------
  // The rewriter.

  /** appendFormat: appends the rewritten `srcFmt` to `dstFmt` and the
      arguments its verbs consume from `srcArgs` to `dstArgs`. */
  method AppendFormat(dstFmt: string, dstArgs: seq<Arg>, srcFmt: string, srcArgs: seq<Value>)
    returns (fmt: string, args: seq<Arg>)
    ensures fmt == dstFmt + Rewrite(srcFmt, srcArgs).format
    ensures args == dstArgs + Rewrite(srcFmt, srcArgs).args
  {
    ghost var goal := Rewrite(srcFmt, srcArgs);
    fmt, args := dstFmt, dstArgs;
    var rem := srcArgs;
    var i, n := 0, |srcFmt|;
    while i != n
      invariant 0 <= i <= n
      invariant fmt + FormatOf(LexFrom(srcFmt, i, InText)) == dstFmt + goal.format
      invariant args + ArgsOf(LexFrom(srcFmt, i, InText), rem) == dstArgs + goal.args
      decreases n - i
    {
      var off := IndexByte(srcFmt[i..], '%');
      IndexByteFrom(srcFmt, i, '%');
      if off < 0 {
        RunFormat(srcFmt, i);
        RunArgs(srcFmt, i, rem);
        fmt := fmt + srcFmt[i..];
        break;
      }
      ghost var i0, fmt0 := i, fmt;
      off := off + 1;
      fmt := fmt + srcFmt[i..i + off];
      i := i + off;

      if i != n && srcFmt[i] == '%' { // escaped '%'
        EscapeTurn(srcFmt, i0, fmt0);
        EscapeTurnArgs(srcFmt, i0, rem);
        fmt := fmt + ['%'];
        i := i + 1;
        continue;
      }

      var key, spec, end := ScanVerb(srcFmt, i);
      VerbOpens(srcFmt, i - 1);
      VerbTurn(srcFmt, i0, key, spec, end, fmt0);
      VerbTurnArgs(srcFmt, i0, rem, key, spec, end, args);
      fmt := fmt + spec;
      i := end;
      var val: Value;
      if |rem| == 0 {
        val := Missing;
      } else {
        val, rem := rem[0], rem[1..];
      }
      args := args + [Arg(key, val)];
    }
  }

  /** The inner loop of appendFormat: scans the verb whose '%' is at
      `start - 1`, up to and including its first letter. */
  method ScanVerb(srcFmt: string, start: nat) returns (key: string, spec: string, end: nat)
    requires 1 <= start <= |srcFmt|
    ensures start <= end <= |srcFmt|
    ensures LexFrom(srcFmt, start, InVerb("", "")) == [Verb(key, spec)] + LexFrom(srcFmt, end, InText)
  {
    ghost var goal := LexFrom(srcFmt, start, InVerb("", ""));
    key, spec := "", "";
    var i, n := start, |srcFmt|;
    while i != n
      invariant start <= i <= n
      invariant LexFrom(srcFmt, i, InVerb(key, spec)) == goal
      decreases n - i
    {
      var c := srcFmt[i];
      if c != ':' {
        spec := spec + [c];
        i := i + 1;
        if IsLetter(c) {
          end := i;
          assert goal == [Verb(key, spec)] + LexFrom(srcFmt, end, InText);
          return;
        }
      } else {
        var clause := ExtractName(srcFmt, i);
        if clause.Unclosed? {
          UnclosedStep(srcFmt, i, key, spec);
          spec := spec + clause.text;
          end := n;
          assert LexFrom(srcFmt, end, InText) == [];
          return;
        }
        ClosedStep(srcFmt, i, key, spec);
        key := clause.name;
        i := clause.end;
      }
    }
    end := i;
  }

  /** The ':' case of the inner loop: extracts the argument name from the
      format string. */
  method ExtractName(srcFmt: string, i: nat) returns (clause: Clause)
    requires i < |srcFmt| && srcFmt[i] == ':'
    ensures clause == ScanClause(srcFmt, i)
  {
    var n := |srcFmt|;
    if i + 1 == n {
      assert srcFmt[i..] == [':'];
      return Unclosed([':']);
    }
    var j := IndexByte(srcFmt[i + 1..], ':');
    IndexByteFrom(srcFmt, i + 1, ':');
    if j < 0 {
      clause := Unclosed(srcFmt[i..]);
    } else {
      clause := Closed(srcFmt[i + 1..i + 1 + j], i + 1 + j + 1);
    }
  }
}
