/** The few functions of Go's `strings` and `strconv` packages that the
    logging core relies on, over Dafny strings. A Go string or `[]byte`
    is modelled as the sequence of its bytes, one `char` per byte, so
    `|s|` is Go's `len(s)` and `s[i..j]` is Go's byte slice `s[i:j]`. */
module Strings {

  /** strings.IndexByte: the index of the first `c` in `s`, or -1. */
  function IndexByte(s: string, c: char): (k: int)
    ensures -1 <= k < |s|
    ensures k >= 0 ==> s[k] == c
  {
    if s == [] then -1
    else if s[0] == c then 0
    else
      var k := IndexByte(s[1..], c);
      if k < 0 then -1 else k + 1
  }

  /** No `c` comes before the index IndexByte finds (or anywhere, when it
      finds none). */
  lemma {:induction false} IndexByteFirst(s: string, c: char)
    ensures forall j :: 0 <= j < |s| && (IndexByte(s, c) < 0 || j < IndexByte(s, c)) ==> s[j] != c
  {
    if s != [] && s[0] != c {
      IndexByteFirst(s[1..], c);
      forall j | 1 <= j < |s|
        ensures s[j] == s[1..][j - 1]
      {
      }
    }
  }

  /** The index of the first `c` in `s` at or after position `i`, or -1:
      IndexByte on the suffix `s[i..]`, counted from the start of `s`. */
  function IndexFrom(s: string, i: nat, c: char): (k: int)
    requires i <= |s|
    ensures k == -1 || (i <= k < |s| && s[k] == c)
    decreases |s| - i
  {
    if i == |s| then -1 else if s[i] == c then i else IndexFrom(s, i + 1, c)
  }

  /** No `c` lies between `i` and the index IndexFrom finds (or after `i`
      at all, when it finds none). */
  lemma {:induction false} IndexFromFirst(s: string, i: nat, c: char)
    requires i <= |s|
    ensures forall j :: i <= j < |s| && (IndexFrom(s, i, c) < 0 || j < IndexFrom(s, i, c)) ==> s[j] != c
    decreases |s| - i
  {
    if i < |s| && s[i] != c {
      IndexFromFirst(s, i + 1, c);
    }
  }

  /** IndexByte on a suffix is IndexFrom shifted by the suffix's start. */
  lemma {:induction false} IndexByteFrom(s: string, i: nat, c: char)
    requires i <= |s|
    ensures IndexByte(s[i..], c) == if IndexFrom(s, i, c) < 0 then -1 else IndexFrom(s, i, c) - i
    decreases |s| - i
  {
    if i < |s| && s[i] != c {
      IndexByteFrom(s, i + 1, c);
      assert s[i..][1..] == s[i + 1..];
    }
  }

  /** strings.LastIndex with a one-character separator: the index of the
      last `c` in `s`, or -1. */
  function LastIndexByte(s: string, c: char): (k: int)
    ensures -1 <= k < |s|
    ensures k >= 0 ==> s[k] == c
  {
    if s == [] then -1
    else if s[|s| - 1] == c then |s| - 1
    else LastIndexByte(s[..|s| - 1], c)
  }

  /** No `c` comes after the index LastIndexByte finds. */
  lemma {:induction false} LastIndexByteLast(s: string, c: char)
    ensures forall j :: LastIndexByte(s, c) < j < |s| ==> s[j] != c
  {
    if s != [] && s[|s| - 1] != c {
      LastIndexByteLast(s[..|s| - 1], c);
    }
  }

  /** strings.Count with a one-character separator. */
  function Count(s: string, c: char): nat
  {
    if s == [] then 0
    else Count(s[..|s| - 1], c) + (if s[|s| - 1] == c then 1 else 0)
  }

  lemma {:induction false} CountConcat(a: string, b: string, c: char)
    ensures Count(a + b, c) == Count(a, c) + Count(b, c)
    decreases |b|
  {
    if b == [] {
      assert a + b == a;
    } else {
      assert (a + b)[..|a + b| - 1] == a + b[..|b| - 1];
      CountConcat(a, b[..|b| - 1], c);
    }
  }

  /** A line holds exactly one line break, at its end. */
  lemma LineCount(s: string)
    requires '\n' !in s
    ensures Count(s + "\n", '\n') == 1
  {
    CountNone(s, '\n');
    assert (s + "\n")[..|s|] == s;
  }

  lemma {:induction false} CountNone(s: string, c: char)
    ensures Count(s, c) == 0 <==> c !in s
    decreases |s|
  {
    if s != [] {
      CountNone(s[..|s| - 1], c);
      assert s == s[..|s| - 1] + [s[|s| - 1]];
    }
  }

  /** A non-empty sequence is its front followed by its last element. */
  lemma SplitLast<T>(xs: seq<T>)
    requires xs != []
    ensures xs == xs[..|xs| - 1] + [xs[|xs| - 1]]
  {
  }

  /** `f` applied to every element of `xs`. */
  function Map<A, B>(f: A -> B, xs: seq<A>): (r: seq<B>)
    ensures |r| == |xs|
    ensures forall k :: 0 <= k < |xs| ==> r[k] == f(xs[k])
  {
    seq(|xs|, k requires 0 <= k < |xs| => f(xs[k]))
  }

  lemma MapConcat<A, B>(f: A -> B, xs: seq<A>, ys: seq<A>)
    ensures Map(f, xs + ys) == Map(f, xs) + Map(f, ys)
  {
  }

  lemma MapSnoc<A, B>(f: A -> B, xs: seq<A>, x: A)
    ensures Map(f, xs + [x]) == Map(f, xs) + [f(x)]
  {
  }

  /** The parts written one after the other. */
  function Concat(parts: seq<string>): string
  {
    if parts == [] then "" else Concat(parts[..|parts| - 1]) + parts[|parts| - 1]
  }

  lemma ConcatSnoc(parts: seq<string>, p: string)
    ensures Concat(parts + [p]) == Concat(parts) + p
  {
    assert (parts + [p])[..|parts|] == parts;
  }

  /** strings.HasPrefix. */
  predicate HasPrefix(s: string, prefix: string)
  {
    |prefix| <= |s| && s[..|prefix|] == prefix
  }

  /** strings.Join. */
  function Join(parts: seq<string>, sep: string): string
  {
    if parts == [] then ""
    else if |parts| == 1 then parts[0]
    else parts[0] + sep + Join(parts[1..], sep)
  }

  /** Appending one more part to a joined list adds the separator and the part. */
  lemma {:induction false} JoinSnoc(parts: seq<string>, p: string, sep: string)
    ensures Join(parts + [p], sep) == if parts == [] then p else Join(parts, sep) + sep + p
    decreases |parts|
  {
    if |parts| > 1 {
      assert (parts + [p])[1..] == parts[1..] + [p];
      JoinSnoc(parts[1..], p, sep);
    } else if |parts| == 1 {
      assert (parts + [p])[1..] == [p];
    }
  }

  /** Go's `<` on strings: lexicographic order of the characters. */
  predicate Less(a: string, b: string)
  {
    if b == [] then false
    else if a == [] then true
    else if a[0] != b[0] then a[0] < b[0]
    else Less(a[1..], b[1..])
  }

  lemma {:induction false} LessIrreflexive(a: string)
    ensures !Less(a, a)
  {
    if a != [] {
      LessIrreflexive(a[1..]);
    }
  }

  lemma {:induction false} LessTransitive(a: string, b: string, c: string)
    requires Less(a, b) && Less(b, c)
    ensures Less(a, c)
  {
    if a != [] && a[0] == b[0] && b[0] == c[0] {
      LessTransitive(a[1..], b[1..], c[1..]);
    }
  }

  /** Two different strings are ordered one way or the other. */
  lemma {:induction false} LessTotal(a: string, b: string)
    ensures a == b || Less(a, b) || Less(b, a)
  {
    if a != [] && b != [] && a[0] == b[0] {
      LessTotal(a[1..], b[1..]);
      if a[1..] == b[1..] {
        assert a == [a[0]] + a[1..] && b == [b[0]] + b[1..];
      }
    }
  }

  /** strconv.AppendUint / %d of a non-negative number. */
  function Decimal(n: nat): (r: string)
    ensures |r| >= 1
    ensures forall k :: 0 <= k < |r| ==> '0' <= r[k] <= '9'
  {
    if n < 10 then [Digit(n)] else Decimal(n / 10) + [Digit(n % 10)]
  }

  function Digit(d: nat): char
    requires d < 10
  {
    ['0', '1', '2', '3', '4', '5', '6', '7', '8', '9'][d]
  }

  /** %d (and strconv.Itoa) of any integer. */
  function IntString(n: int): string
  {
    if n < 0 then "-" + Decimal(-n) else Decimal(n)
  }
}
