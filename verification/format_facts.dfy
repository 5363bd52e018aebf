/** What the template rewriter of logger.go promises, stated on the lexer
    that specifies it. */
module FormatFacts {
  import opened Events
  import opened Strings
  import opened Format

  /** Lexing a suffix of a template is lexing the template from the
      suffix's start. */
  lemma {:induction false} SuffixLex(s: string, k: nat, i: nat, m: Mode)
    requires k + i <= |s|
    ensures LexFrom(s, k + i, m) == LexFrom(s[k..], i, m)
    decreases |s| - (k + i)
  {
    var t := s[k..];
    if k + i < |s| {
      assert s[k + i] == t[i];
      if i + 1 < |t| {
        assert s[k + i + 1] == t[i + 1];
      }
      match m
      case InText =>
        if t[i] != '%' {
          SuffixLex(s, k, i + 1, InText);
        } else if i + 1 < |t| && t[i + 1] == '%' {
          SuffixLex(s, k, i + 2, InText);
        } else {
          SuffixLex(s, k, i + 1, InVerb("", ""));
        }
      case InVerb(key, spec) =>
        if t[i] == ':' {
          SuffixLex(s, k, i + 1, InName(key, spec, ""));
        } else if IsLetter(t[i]) {
          SuffixLex(s, k, i + 1, InText);
        } else {
          SuffixLex(s, k, i + 1, InVerb(key, spec + [t[i]]));
        }
      case InName(key, spec, name) =>
        if t[i] == ':' {
          SuffixLex(s, k, i + 1, InVerb(name, spec));
        } else {
          SuffixLex(s, k, i + 1, InName(key, spec, name + [t[i]]));
        }
    }
  }

  /** A prefix without '%' is copied unchanged in front of the rewritten
      rest and consumes no value. */
  lemma RewriteLiteralPrefix(a: string, t: string, vals: seq<Value>)
    requires '%' !in a
    ensures Rewrite(a + t, vals) == Rewritten(a + Rewrite(t, vals).format, Rewrite(t, vals).args)
  {
    var s := a + t;
    forall j | 0 <= j < |a|
      ensures s[j] != '%'
    {
      assert s[j] == a[j];
    }
    LiteralLex(s, 0, |a|);
    SuffixLex(s, |a|, 0, InText);
    assert s[..|a|] == a && s[|a|..] == t;
    CharsText(a, vals);
    FormatConcat(Chars(a), Lex(t));
    ArgsConcat(Chars(a), Lex(t), vals);
    assert Drop(vals, 0) == vals;
  }

  /** A template with no '%' is copied unchanged and adds no argument. */
  lemma RewriteNoPercent(t: string, vals: seq<Value>)
    requires '%' !in t
    ensures Rewrite(t, vals) == Rewritten(t, [])
  {
    RewriteLiteralPrefix(t, "", vals);
    assert t + "" == t;
  }

  /** "%%" is copied as "%%" and consumes no value. */
  lemma RewriteEscape(t: string, vals: seq<Value>)
    ensures Rewrite("%%" + t, vals) == Rewritten("%%" + Rewrite(t, vals).format, Rewrite(t, vals).args)
  {
    var s := "%%" + t;
    SuffixLex(s, 2, 0, InText);
    assert s[2..] == t;
    assert Lex(s) == [Escape] + Lex(t);
    assert ([Escape] + Lex(t))[1..] == Lex(t);
  }

  /** A lone '%' at the end of a template is copied and still consumes a
      value, under the empty name. */
  lemma RewriteTrailingPercent(a: string, vals: seq<Value>)
    requires '%' !in a
    ensures Rewrite(a + "%", vals) == Rewritten(a + "%", [Arg("", Next(vals))])
  {
    RewriteLiteralPrefix(a, "%", vals);
    var t := "%";
    assert t[0] == '%';
    assert LexFrom(t, 1, InVerb("", "")) == [Verb("", "")];
    assert Lex(t) == [Verb("", "")];
    SingleVerb("", vals);
    assert "%" + "" == "%";
  }

  /** The characters of a verb are copied up to and including its first
      letter, when no ':' comes before it ... */
  lemma {:induction false} VerbToLetter(s: string, i: nat, k: nat, key: string, spec: string)
    requires i <= k < |s| && IsLetter(s[k])
    requires forall j :: i <= j < k ==> s[j] != ':' && !IsLetter(s[j])
    ensures LexFrom(s, i, InVerb(key, spec)) == [Verb(key, spec + s[i..k + 1])] + LexFrom(s, k + 1, InText)
    decreases k - i
  {
    if i < k {
      VerbToLetter(s, i + 1, k, key, spec + [s[i]]);
      assert spec + [s[i]] + s[i + 1..k + 1] == spec + s[i..k + 1];
    } else {
      assert s[i..k + 1] == [s[i]];
    }
  }

  /** ... and to the end of the template when it has no letter and no ':'
      left. */
  lemma {:induction false} VerbToEnd(s: string, i: nat, key: string, spec: string)
    requires i <= |s|
    requires forall j :: i <= j < |s| ==> s[j] != ':' && !IsLetter(s[j])
    ensures LexFrom(s, i, InVerb(key, spec)) == [Verb(key, spec + s[i..])]
    decreases |s| - i
  {
    if i < |s| {
      VerbToEnd(s, i + 1, key, spec + [s[i]]);
      assert spec + [s[i]] + s[i + 1..] == spec + s[i..];
    } else {
      assert spec + s[i..] == spec;
    }
  }

  /** The verbs' names, in order. */
  function VerbNames(ps: seq<Piece>): (names: seq<string>)
    ensures |names| == VerbCount(ps)
  {
    if ps == [] then []
    else (if ps[0].Verb? then [ps[0].name] else []) + VerbNames(ps[1..])
  }

  /** Every verb consumes exactly one argument, named after the verb; the
      positional values are taken left to right, and `Missing` stands in
      for each verb past the last value. */
  lemma {:induction false} ArgsPositional(ps: seq<Piece>, vals: seq<Value>)
    ensures |ArgsOf(ps, vals)| == VerbCount(ps)
    ensures forall k :: 0 <= k < |ArgsOf(ps, vals)| ==>
              ArgsOf(ps, vals)[k] == Arg(VerbNames(ps)[k], if k < |vals| then vals[k] else Missing)
  {
    if ps != [] {
      if ps[0].Verb? {
        ArgsPositional(ps[1..], Rest(vals));
        var args := ArgsOf(ps, vals);
        forall k | 0 <= k < |args|
          ensures args[k] == Arg(VerbNames(ps)[k], if k < |vals| then vals[k] else Missing)
        {
          if k > 0 {
            assert args[k] == ArgsOf(ps[1..], Rest(vals))[k - 1];
            assert VerbNames(ps)[k] == VerbNames(ps[1..])[k - 1];
          }
        }
      } else {
        ArgsPositional(ps[1..], vals);
      }
    }
  }

  /** The rewritten template's arguments, one per verb. */
  lemma RewriteArgs(t: string, vals: seq<Value>)
    ensures var r := Rewrite(t, vals);
            |r.args| == VerbCount(Lex(t)) &&
            forall k :: 0 <= k < |r.args| ==>
              r.args[k] == Arg(VerbNames(Lex(t))[k], if k < |vals| then vals[k] else Missing)
  {
    ArgsPositional(Lex(t), vals);
  }

  /** Without any ':' in the template, every argument is unnamed. */
  lemma {:induction false} UnnamedLex(s: string, i: nat, m: Mode)
    requires i <= |s| && ':' !in s[i..]
    requires m.InText? || (m.InVerb? && m.key == "")
    ensures forall name :: name in VerbNames(LexFrom(s, i, m)) ==> name == ""
    decreases |s| - i
  {
    if i < |s| {
      assert s[i] == s[i..][0];
      assert s[i + 1..] == s[i..][1..];
      match m
      case InText =>
        if s[i] != '%' {
          UnnamedLex(s, i + 1, InText);
          NamesCons(Char(s[i]), LexFrom(s, i + 1, InText));
        } else if i + 1 < |s| && s[i + 1] == '%' {
          assert s[i + 2..] == s[i + 1..][1..];
          UnnamedLex(s, i + 2, InText);
          NamesCons(Escape, LexFrom(s, i + 2, InText));
        } else {
          UnnamedLex(s, i + 1, InVerb("", ""));
        }
      case InVerb(_, spec) =>
        if IsLetter(s[i]) {
          UnnamedLex(s, i + 1, InText);
          NamesCons(Verb("", spec + [s[i]]), LexFrom(s, i + 1, InText));
        } else {
          UnnamedLex(s, i + 1, InVerb("", spec + [s[i]]));
        }
    }
  }

  lemma NamesCons(p: Piece, ps: seq<Piece>)
    ensures VerbNames([p] + ps) == (if p.Verb? then [p.name] else []) + VerbNames(ps)
  {
    assert ([p] + ps)[1..] == ps;
  }

  lemma RewriteUnnamed(t: string, vals: seq<Value>)
    requires ':' !in t
    ensures forall a :: a in Rewrite(t, vals).args ==> a.name == ""
  {
    UnnamedLex(t, 0, InText);
    RewriteArgs(t, vals);
    forall a | a in Rewrite(t, vals).args
      ensures a.name == ""
    {
      var k :| 0 <= k < |Rewrite(t, vals).args| && Rewrite(t, vals).args[k] == a;
      assert VerbNames(Lex(t))[k] in VerbNames(Lex(t));
    }
  }

  /** The example of the Logger documentation: the `:name:` clause leaves
      the format and names the argument. */
  lemma RewriteHello(luke: Value)
    ensures Rewrite("Hello %:name:s!", [luke]) == Rewritten("Hello %s!", [Arg("name", luke)])
  {
    var t := "%:name:s!";
    RewriteLiteralPrefix("Hello ", t, [luke]);
    assert "Hello %:name:s!" == "Hello " + t;
    var ps := [Verb("name", "s"), Char('!')];
    HelloLex();
    assert FormatOf(ps) == "%s!" by {
      assert ps[1..][1..] == [];
      assert "%" + "s" + ([ '!' ] + "") == "%s!";
    }
    assert ArgsOf(ps, [luke]) == [Arg("name", luke)] by {
      assert ps[1..][1..] == [];
    }
    assert "Hello " + "%s!" == "Hello %s!";
  }

  lemma HelloLex()
    ensures Lex("%:name:s!") == [Verb("name", "s"), Char('!')]
  {
    var t := "%:name:s!";
    var rest := LexFrom(t, 8, InText);
    assert rest == [Char('!')] by {
      assert t[8] == '!';
      assert LexFrom(t, 9, InText) == [];
    }
    calc {
      Lex(t);
      LexFrom(t, 1, InVerb("", ""));
      LexFrom(t, 2, InName("", "", ""));
      { assert t[2] == 'n' && "" + ['n'] == "n"; }
      LexFrom(t, 3, InName("", "", "n"));
      { assert t[3] == 'a' && "n" + ['a'] == "na"; }
      LexFrom(t, 4, InName("", "", "na"));
      { assert t[4] == 'm' && "na" + ['m'] == "nam"; }
      LexFrom(t, 5, InName("", "", "nam"));
      { assert t[5] == 'e' && "nam" + ['e'] == "name"; }
      LexFrom(t, 6, InName("", "", "name"));
      LexFrom(t, 7, InVerb("name", ""));
      { assert t[7] == 's' && IsLetter('s') && "" + ['s'] == "s"; }
      [Verb("name", "s")] + rest;
      [Verb("name", "s"), Char('!')];
    }
  }

  /** An unterminated clause at the end is copied and the verb stays
      unnamed. */
  lemma RewriteUnclosed(vals: seq<Value>)
    ensures Rewrite("%:", vals) == Rewritten("%:", [Arg("", Next(vals))])
    ensures Rewrite("%5:id", vals) == Rewritten("%5:id", [Arg("", Next(vals))])
  {
    var t := "%:";
    assert Lex(t) == [Verb("", ":")] by {
      assert t[0] == '%' && t[1] == ':';
      assert LexFrom(t, 2, InName("", "", "")) == [Verb("", "" + [':'] + "")];
      assert "" + [':'] + "" == ":";
    }
    SingleVerb(":", vals);
    UnclosedLex();
    SingleVerb("5:id", vals);
  }

  lemma UnclosedLex()
    ensures Lex("%5:id") == [Verb("", "5:id")]
  {
    var u := "%5:id";
    calc {
      Lex(u);
      { assert u[0] == '%' && u[1] == '5'; }
      LexFrom(u, 1, InVerb("", ""));
      { assert !IsLetter('5') && "" + ['5'] == "5"; }
      LexFrom(u, 2, InVerb("", "5"));
      { assert u[2] == ':'; }
      LexFrom(u, 3, InName("", "5", ""));
      { assert u[3] == 'i' && "" + ['i'] == "i"; }
      LexFrom(u, 4, InName("", "5", "i"));
      { assert u[4] == 'd' && "i" + ['d'] == "id"; }
      LexFrom(u, 5, InName("", "5", "id"));
      [Verb("", "5" + [':'] + "id")];
      { assert "5" + [':'] + "id" == "5:id"; }
      [Verb("", "5:id")];
    }
  }

  /** A template that is a single verb. */
  lemma SingleVerb(spec: string, vals: seq<Value>)
    ensures FormatOf([Verb("", spec)]) == "%" + spec
    ensures ArgsOf([Verb("", spec)], vals) == [Arg("", Next(vals))]
  {
    assert [Verb("", spec)][1..] == [];
  }

  /** A plain verb `%c` is copied and consumes the next value, unnamed. */
  lemma RewritePlainVerb(c: char, t: string, vals: seq<Value>)
    requires IsLetter(c)
    ensures var r := Rewrite(t, Rest(vals));
            Rewrite("%" + [c] + t, vals) == Rewritten("%" + [c] + r.format, [Arg("", Next(vals))] + r.args)
  {
    var s := "%" + [c] + t;
    assert s[0] == '%' && s[1] == c;
    assert "" + [c] == [c];
    assert LexFrom(s, 1, InVerb("", "")) == [Verb("", [c])] + LexFrom(s, 2, InText);
    SuffixLex(s, 2, 0, InText);
    assert s[2..] == t;
    VerbFormat("", [c], Lex(t));
    VerbArgs("", [c], Lex(t), vals);
  }

  /** A verb `%:name:c` at the start of a template lexes as one verb
      named `name`. */
  lemma NamedVerbLex(s: string, name: string, c: char)
    requires 2 + |name| + 2 <= |s| && ':' !in name && IsLetter(c)
    requires s[0] == '%' && s[1] == ':' && s[2..2 + |name|] == name
    requires s[2 + |name|] == ':' && s[3 + |name|] == c
    ensures Lex(s) == [Verb(name, [c])] + LexFrom(s, 4 + |name|, InText)
  {
    var m := 2 + |name|;
    forall q | 1 < q < m
      ensures s[q] != ':'
    {
      assert s[q] == s[2..m][q - 2];
    }
    NameRun(s, 1, m, "", "");
    assert "" + [c] == [c];
    calc {
      Lex(s);
      LexFrom(s, 1, InVerb("", ""));
      LexFrom(s, 2, InName("", "", ""));
      LexFrom(s, m, InName("", "", name));
      LexFrom(s, m + 1, InVerb(name, ""));
      [Verb(name, [c])] + LexFrom(s, m + 2, InText);
    }
  }

  /** A verb `%:name:c` is copied as `%c` and consumes the next value under
      `name`. */
  lemma RewriteNamedVerb(name: string, c: char, t: string, vals: seq<Value>)
    requires ':' !in name && IsLetter(c)
    ensures var r := Rewrite(t, Rest(vals));
            Rewrite("%:" + name + ":" + [c] + t, vals) == Rewritten("%" + [c] + r.format, [Arg(name, Next(vals))] + r.args)
  {
    var s := "%:" + name + ":" + [c] + t;
    var m := 2 + |name|;
    assert s[0] == '%' && s[1] == ':' && s[m] == ':' && s[m + 1] == c;
    assert s[2..m] == name;
    assert s[m + 2..] == t;
    NamedVerbLex(s, name, c);
    SuffixLex(s, m + 2, 0, InText);
    VerbFormat(name, [c], Lex(t));
    VerbArgs(name, [c], Lex(t), vals);
  }

  lemma FormatCons(p: Piece, ps: seq<Piece>)
    ensures FormatOf([p] + ps) == Output(p) + FormatOf(ps)
  {
    assert ([p] + ps)[1..] == ps;
  }

  /** Without a ':' the rewritten format is the template itself: every
      piece writes back exactly the characters it was read from. */
  lemma {:induction false} VerbatimLex(s: string, i: nat, m: Mode)
    requires i <= |s|
    requires forall j :: i <= j < |s| ==> s[j] != ':'
    requires m.InText? || m.InVerb?
    ensures FormatOf(LexFrom(s, i, m)) == (if m.InText? then "" else "%" + m.spec) + s[i..]
    decreases |s| - i
  {
    if i == |s| {
      if m.InVerb? {
        FormatCons(Verb(m.key, m.spec), []);
      }
    } else {
      assert s[i..] == [s[i]] + s[i + 1..];
      match m
      case InText =>
        if s[i] != '%' {
          VerbatimLex(s, i + 1, InText);
          FormatCons(Char(s[i]), LexFrom(s, i + 1, InText));
        } else if i + 1 < |s| && s[i + 1] == '%' {
          VerbatimLex(s, i + 2, InText);
          FormatCons(Escape, LexFrom(s, i + 2, InText));
          assert s[i..] == "%%" + s[i + 2..];
        } else {
          VerbatimLex(s, i + 1, InVerb("", ""));
        }
      case InVerb(key, spec) =>
        if IsLetter(s[i]) {
          VerbatimLex(s, i + 1, InText);
          FormatCons(Verb(key, spec + [s[i]]), LexFrom(s, i + 1, InText));
        } else {
          VerbatimLex(s, i + 1, InVerb(key, spec + [s[i]]));
        }
    }
  }

  /** A template without ':' reaches the formatter unchanged, and none of
      its arguments is named. */
  lemma RewriteVerbatim(t: string, vals: seq<Value>)
    requires ':' !in t
    ensures Rewrite(t, vals).format == t
    ensures forall a :: a in Rewrite(t, vals).args ==> a.name == ""
  {
    VerbatimLex(t, 0, InText);
    assert t[0..] == t;
    RewriteUnnamed(t, vals);
  }
}
