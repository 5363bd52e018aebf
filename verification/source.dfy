/** trimGOPATH of source.go: the source file path of a call site, relative
    to the GOPATH it was compiled in. */
module Source {
  import opened Strings

  predicate IsSuffix(r: string, file: string)
  {
    |r| <= |file| && file[|file| - |r|..] == r
  }

  /** `r` is the part of `file` after a '/' and holds exactly `k` path
      separators. */
  predicate TrimmedAfterSep(file: string, r: string, k: nat)
  {
    IsSuffix(r, file) && |r| < |file| && file[|file| - |r| - 1] == '/' && Count(r, '/') == k
  }

  /** `r` is `file` relative to the GOPATH, for a function named `name`:
      the last `Count(name, '/') + 1` path segments of `file`, or all of
      `file` when it holds fewer than `Count(name, '/') + 2` separators. */
  predicate Trimmed(name: string, file: string, r: string)
  {
    IsSuffix(r, file) &&
    (Count(file, '/') < Count(name, '/') + 2 ==> r == file) &&
    (Count(file, '/') >= Count(name, '/') + 2 ==> TrimmedAfterSep(file, r, Count(name, '/') + 1))
  }

  /** The longest suffix of `file` that holds at most `k` separators. */
  function KeepSegments(file: string, k: nat): (r: string)
    ensures IsSuffix(r, file) && Count(r, '/') <= k
    decreases |file|
  {
    if Count(file, '/') <= k then file else KeepSegments(file[1..], k)
  }

  /** The GOPATH-relative path of `file` for a function named `name`: the
      last `Count(name, '/') + 1` segments. */
  function Trim(name: string, file: string): string
  {
    KeepSegments(file, Count(name, '/') + 1)
  }

  /** KeepSegments either keeps the whole file or cuts it right after a
      separator, keeping exactly `k` of them. */
  lemma {:induction false} KeepSegmentsCut(file: string, k: nat)
    ensures var r := KeepSegments(file, k);
            (Count(file, '/') <= k ==> r == file) &&
            (Count(file, '/') > k ==> TrimmedAfterSep(file, r, k))
    decreases |file|
  {
    if Count(file, '/') > k {
      var tail := file[1..];
      HeadCount(file);
      if Count(tail, '/') > k {
        KeepSegmentsCut(tail, k);
        SuffixOfTail(file, KeepSegments(tail, k));
      }
    }
  }

  /** Count from the front: the first character and the rest. */
  lemma HeadCount(file: string)
    requires file != []
    ensures Count(file, '/') == (if file[0] == '/' then 1 else 0) + Count(file[1..], '/')
  {
    assert file == [file[0]] + file[1..];
    CountConcat([file[0]], file[1..], '/');
    assert [file[0]][..0] == [];
  }

  /** A cut of the tail after a separator is a cut of the whole file. */
  lemma SuffixOfTail(file: string, r: string)
    requires file != [] && TrimmedAfterSep(file[1..], r, Count(r, '/'))
    ensures TrimmedAfterSep(file, r, Count(r, '/'))
  {
    assert file[|file| - |r|..] == file[1..][|file[1..]| - |r|..];
    assert file[|file| - |r| - 1] == file[1..][|file[1..]| - |r| - 1];
  }

  /** Trim satisfies what trimGOPATH promises. */
  lemma TrimIsTrimmed(name: string, file: string)
    ensures Trimmed(name, file, Trim(name, file))
  {
    KeepSegmentsCut(file, Count(name, '/') + 1);
  }

  /** trimGOPATH. */
  method TrimGOPATH(name: string, file: string) returns (r: string)
    ensures IsSuffix(r, file)
    ensures Count(file, '/') < Count(name, '/') + 2 ==> r == file
    ensures Count(file, '/') >= Count(name, '/') + 2 ==> TrimmedAfterSep(file, r, Count(name, '/') + 1)
    ensures Trimmed(name, file, r)
    ensures r == Trim(name, file)
  {
    var goal := Count(name, '/') + 2;
    var i: int := |file|;
    var n := 0;
    while n < goal
      invariant 0 <= n <= goal
      invariant 0 <= i <= |file|
      invariant Count(file[i..], '/') == n
      invariant n > 0 ==> i < |file| && file[i] == '/'
    {
      var j := LastIndexByte(file[..i], '/');
      LastIndexByteLast(file[..i], '/');
      if j == -1 {
        // not enough separators: the slice below keeps all of `file`
        CountNone(file[..i], '/');
        CountConcat(file[..i], file[i..], '/');
        assert file[..i] + file[i..] == file;
        i := -1;
        break;
      }
      SepCount(file, j, i);
      i := j;
      n := n + 1;
    }
    r := file[i + 1..];
    if n == goal {
      assert file[i..] == [file[i]] + r;
      CountConcat([file[i]], r, '/');
      CountFile(file, i);
    }
    TrimIsTrimmed(name, file);
    TrimmedDeterministic(name, file, r, Trim(name, file));
  }

  /** Stepping back from `i` to the last separator `j` before it counts one
      more separator. */
  lemma SepCount(file: string, j: nat, i: nat)
    requires j < i <= |file| && file[j] == '/'
    requires forall q :: j < q < i ==> file[..i][q] != '/'
    ensures Count(file[j..], '/') == Count(file[i..], '/') + 1
  {
    var mid := file[j + 1..i];
    forall q | 0 <= q < |mid|
      ensures mid[q] != '/'
    {
      assert mid[q] == file[..i][j + 1 + q];
    }
    CountNone(mid, '/');
    assert file[j..] == [file[j]] + mid + file[i..];
    CountConcat([file[j]] + mid, file[i..], '/');
    CountConcat([file[j]], mid, '/');
  }

  /** The whole file has at least as many separators as any suffix. */
  lemma CountFile(file: string, i: nat)
    requires i <= |file|
    ensures Count(file[i..], '/') <= Count(file, '/')
  {
    CountConcat(file[..i], file[i..], '/');
    assert file[..i] + file[i..] == file;
  }

  /** trimGOPATH has exactly one possible result. */
  lemma TrimmedDeterministic(name: string, file: string, r1: string, r2: string)
    requires Trimmed(name, file, r1) && Trimmed(name, file, r2)
    ensures r1 == r2
  {
    if Count(file, '/') >= Count(name, '/') + 2 {
      TrimmedUnique(file, r1, r2, Count(name, '/') + 1);
    }
  }

  /** The trimmed path is determined by the file and the number of
      separators it keeps. */
  lemma {:induction false} TrimmedUnique(file: string, r1: string, r2: string, k: nat)
    requires TrimmedAfterSep(file, r1, k) && TrimmedAfterSep(file, r2, k)
    ensures r1 == r2
  {
    if |r1| < |r2| {
      SuffixMoreSeps(file, r1, r2);
    } else if |r2| < |r1| {
      SuffixMoreSeps(file, r2, r1);
    } else {
      assert r1 == file[|file| - |r1|..] == r2;
    }
  }

  /** A longer suffix that starts after a '/' still contains that '/' of the
      shorter one. */
  lemma SuffixMoreSeps(file: string, short: string, long: string)
    requires IsSuffix(short, file) && IsSuffix(long, file) && |short| < |long|
    requires |short| < |file| && file[|file| - |short| - 1] == '/'
    ensures Count(long, '/') > Count(short, '/')
  {
    var cut := |long| - |short|;
    var head := long[..cut];
    assert long == head + short by {
      assert long[cut..] == file[|file| - |short|..];
    }
    assert head[cut - 1] == '/' by {
      assert head[cut - 1] == file[|file| - |short| - 1];
    }
    assert head[..cut - 1] + [head[cut - 1]] == head;
    CountConcat(head, short, '/');
  }

  /** The example of source.go: with function `pkg/sub.Type.Method`, the
      file `/home/user/src/pkg/sub/file.go` is trimmed to
      `pkg/sub/file.go`. */
  lemma TrimExample()
    ensures Trim("pkg/sub.Type.Method", "/home/user/src/pkg/sub/file.go") == "pkg/sub/file.go"
  {
    ExampleName();
    ExampleTrimmed();
    TrimIsTrimmed("pkg/sub.Type.Method", "/home/user/src/pkg/sub/file.go");
    TrimmedDeterministic("pkg/sub.Type.Method", "/home/user/src/pkg/sub/file.go",
                         Trim("pkg/sub.Type.Method", "/home/user/src/pkg/sub/file.go"), "pkg/sub/file.go");
  }

  lemma CountSep(a: string, b: string)
    ensures Count(a + "/" + b, '/') == Count(a, '/') + 1 + Count(b, '/')
  {
    CountConcat(a + "/", b, '/');
    CountConcat(a, "/", '/');
    assert "/"[..0] == "";
  }

  lemma ExampleName()
    ensures Count("pkg/sub.Type.Method", '/') == 1
  {
    assert "pkg/sub.Type.Method" == "pkg" + "/" + "sub.Type.Method";
    CountSep("pkg", "sub.Type.Method");
    CountNone("pkg", '/');
    CountNone("sub.Type.Method", '/');
  }

  lemma ExampleTrimmed()
    ensures Count("/home/user/src/pkg/sub/file.go", '/') >= 3
    ensures TrimmedAfterSep("/home/user/src/pkg/sub/file.go", "pkg/sub/file.go", 2)
  {
    var file := "/home/user/src/pkg/sub/file.go";
    var want := "pkg/sub/file.go";
    assert want == "pkg/sub" + "/" + "file.go";
    assert "pkg/sub" == "pkg" + "/" + "sub";
    CountSep("pkg/sub", "file.go");
    CountSep("pkg", "sub");
    CountNone("pkg", '/');
    CountNone("sub", '/');
    CountNone("file.go", '/');
    assert file == "/home/user/src" + "/" + want;
    CountSep("/home/user/src", want);
  }
}
