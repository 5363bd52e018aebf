/** The template of the HTTP access log line (httpevents/request.go,
    `log`): a run of verbs, each with the literal text before it, the name
    of the argument it stands for, its verb letter and the value it
    consumes. */
module AccessLog {
  import opened Events
  import opened Strings
  import opened Format
  import opened FormatFacts

  /** One verb of the template: the literal text in front of it, the
      argument's name (empty for an unnamed verb), the verb letter and the
      value passed for it. */
  datatype Slot = Slot(lit: string, name: string, verb: char, value: Value)

  /** A slot as request.go writes it: `%{name}c`. */
  function Written(sl: Slot): string
  {
    sl.lit + (if sl.name == "" then "%" else "%{" + sl.name + "}") + [sl.verb]
  }

  /** A slot in the clause syntax the template rewriter recognises:
      `%:name:c`. */
  function Named(sl: Slot): string
  {
    sl.lit + (if sl.name == "" then "%" else "%:" + sl.name + ":") + [sl.verb]
  }

  /** A slot as a plain printf verb: `%c`. */
  function Plain(sl: Slot): string
  {
    sl.lit + "%" + [sl.verb]
  }

  /** The two ways of naming a verb: `%{name}`, the way request.go writes
      its template, and `%:name:`, the clause syntax of the rewriter. */
  datatype Syntax = Braces | Clauses

  function Text(syntax: Syntax): Slot -> string
  {
    match syntax
    case Braces => Written
    case Clauses => Named
  }

  /** The slots' texts one after the other. */
  function Template(slots: seq<Slot>, text: Slot -> string): string
  {
    if slots == [] then "" else text(slots[0]) + Template(slots[1..], text)
  }

  function SlotValue(sl: Slot): Value
  {
    sl.value
  }

  function SlotArg(sl: Slot): Arg
  {
    Arg(sl.name, sl.value)
  }

  /** The values passed for the slots, in template order. */
  function Values(slots: seq<Slot>): (vals: seq<Value>)
    ensures |vals| == |slots|
    ensures forall k :: 0 <= k < |slots| ==> vals[k] == slots[k].value
  {
    Map(SlotValue, slots)
  }

  /** Each slot's value under the slot's name. */
  function NamedArgs(slots: seq<Slot>): (args: seq<Arg>)
    ensures |args| == |slots|
    ensures forall k :: 0 <= k < |slots| ==> args[k] == Arg(slots[k].name, slots[k].value)
  {
    Map(SlotArg, slots)
  }

  /** Literals free of '%' and ':', names free of ':', verbs that are
      letters. */
  predicate WellFormed(slots: seq<Slot>)
  {
    forall k :: 0 <= k < |slots| ==>
      '%' !in slots[k].lit && ':' !in slots[k].lit && ':' !in slots[k].name && IsLetter(slots[k].verb)
  }

  lemma WellFormedConcat(a: seq<Slot>, b: seq<Slot>)
    requires WellFormed(a) && WellFormed(b)
    ensures WellFormed(a + b)
  {
    forall k | |a| <= k < |a + b|
      ensures (a + b)[k] == b[k - |a|]
    {
    }
  }

  lemma {:induction false} TemplateConcat(a: seq<Slot>, b: seq<Slot>, text: Slot -> string)
    ensures Template(a + b, text) == Template(a, text) + Template(b, text)
    decreases |a|
  {
    if a == [] {
      assert a + b == b;
    } else {
      assert (a + b)[1..] == a[1..] + b;
      TemplateConcat(a[1..], b, text);
    }
  }

  /** One slot in front of the rest of a template: its text becomes a
      plain verb, and it takes the next value under its name. */
  lemma SlotRewrite(sl: Slot, t: string, vals: seq<Value>)
    requires '%' !in sl.lit && ':' !in sl.name && IsLetter(sl.verb)
    ensures var r := Rewrite(t, Rest(vals));
            Rewrite(Named(sl) + t, vals) == Rewritten(Plain(sl) + r.format, [Arg(sl.name, Next(vals))] + r.args)
  {
    var verb := VerbText(sl);
    assert Named(sl) + t == sl.lit + (verb + t);
    RewriteLiteralPrefix(sl.lit, verb + t, vals);
    VerbRewrite(sl, t, vals);
    assert sl.lit + ("%" + [sl.verb] + Rewrite(t, Rest(vals)).format) == Plain(sl) + Rewrite(t, Rest(vals)).format;
  }

  /** The verb part of a slot's `%:name:` text. */
  function VerbText(sl: Slot): string
  {
    if sl.name == "" then "%" + [sl.verb] else "%:" + sl.name + ":" + [sl.verb]
  }

  lemma VerbRewrite(sl: Slot, t: string, vals: seq<Value>)
    requires ':' !in sl.name && IsLetter(sl.verb)
    ensures var r := Rewrite(t, Rest(vals));
            Rewrite(VerbText(sl) + t, vals) == Rewritten("%" + [sl.verb] + r.format, [Arg(sl.name, Next(vals))] + r.args)
  {
    if sl.name == "" {
      RewritePlainVerb(sl.verb, t, vals);
    } else {
      RewriteNamedVerb(sl.name, sl.verb, t, vals);
    }
  }

  /** The rewriter turns the `%:name:` template into the plain one and
      names each value after its slot. */
  lemma {:induction false} NamedRewrite(slots: seq<Slot>)
    requires WellFormed(slots)
    ensures Rewrite(Template(slots, Named), Values(slots)) ==
            Rewritten(Template(slots, Plain), NamedArgs(slots))
  {
    if slots == [] {
      assert Lex("") == [];
    } else {
      var sl, rest := slots[0], slots[1..];
      var vals := Values(slots);
      assert Values(rest) == Rest(vals) && Next(vals) == sl.value;
      assert NamedArgs(slots) == [Arg(sl.name, sl.value)] + NamedArgs(rest);
      assert WellFormed(rest) by {
        forall k | 0 <= k < |rest|
          ensures rest[k] == slots[k + 1]
        {
        }
      }
      NamedRewrite(rest);
      SlotRewrite(sl, Template(rest, Named), vals);
    }
  }

  /** The `%{name}` template has no ':' ... */
  lemma {:induction false} WrittenNoColon(slots: seq<Slot>)
    requires WellFormed(slots)
    ensures ':' !in Template(slots, Written)
  {
    if slots != [] {
      assert WellFormed(slots[1..]) by {
        forall k | 0 <= k < |slots[1..]|
          ensures slots[1..][k] == slots[k + 1]
        {
        }
      }
      WrittenNoColon(slots[1..]);
      var sl := slots[0];
      assert ':' != sl.verb;
      assert ':' !in "%{" && ':' !in "}" && ':' !in "%";
    }
  }

  /** ... so the rewriter passes it to the formatter unchanged, `{name}`
      braces included, and every value goes out unnamed. */
  lemma WrittenRewrite(slots: seq<Slot>)
    requires WellFormed(slots)
    ensures Rewrite(Template(slots, Written), Values(slots)).format == Template(slots, Written)
    ensures forall a :: a in Rewrite(Template(slots, Written), Values(slots)).args ==> a.name == ""
  {
    WrittenNoColon(slots);
    RewriteVerbatim(Template(slots, Written), Values(slots));
  }
}
