/**
 * The part of Go's `strings` package that the repository's URL and path code
 * relies on, over `string` (= `seq<char>`).  Each function is stated by what
 * its result means, and the splitting/joining pair is proved to be mutually
 * inverse.
 */
module GoStrings {

  /** strings.HasPrefix */
  predicate HasPrefix(s: string, prefix: string) {
    |prefix| <= |s| && s[..|prefix|] == prefix
  }

  /** strings.HasSuffix */
  predicate HasSuffix(s: string, suffix: string) {
    |suffix| <= |s| && s[|s| - |suffix|..] == suffix
  }

  /** A suffix as long as the right operand of a concatenation is that operand or nothing of it. */
  lemma SuffixOfConcat(a: string, b: string, s: string)
    requires |b| == |s|
    ensures HasSuffix(a + b, s) <==> b == s
  {
    assert (a + b)[|a + b| - |s|..] == b;
  }

  /** strings.TrimPrefix: removes the prefix once, when present. */
  function TrimPrefix(s: string, prefix: string): (r: string)
    ensures HasPrefix(s, prefix) ==> s == prefix + r
    ensures !HasPrefix(s, prefix) ==> r == s
  {
    if HasPrefix(s, prefix) then s[|prefix|..] else s
  }

  /** strings.TrimSuffix: removes the suffix once, when present. */
  function TrimSuffix(s: string, suffix: string): (r: string)
    ensures HasSuffix(s, suffix) ==> s == r + suffix
    ensures !HasSuffix(s, suffix) ==> r == s
  {
    if HasSuffix(s, suffix) then s[..|s| - |suffix|] else s
  }

  /** The index of the first occurrence of c in s, or -1. */
  function IndexOf(s: string, c: char): (i: int)
    ensures -1 <= i < |s|
    ensures i < 0 ==> c !in s
    ensures 0 <= i ==> s[i] == c && c !in s[..i]
    decreases |s|
  {
    if s == [] then -1
    else if s[0] == c then 0
    else
      var j := IndexOf(s[1..], c);
      assert s[1..][..if j < 0 then 0 else j] == s[1..1 + (if j < 0 then 0 else j)];
      if j < 0 then -1 else 1 + j
  }

  /** The index of the last occurrence of c in s, or -1. */
  function LastIndexOf(s: string, c: char): (i: int)
    ensures -1 <= i < |s|
    ensures i < 0 ==> c !in s
    ensures 0 <= i ==> s[i] == c && c !in s[i + 1..]
    decreases |s|
  {
    if s == [] then -1
    else if s[|s| - 1] == c then |s| - 1
    else
      var j := LastIndexOf(s[..|s| - 1], c);
      assert 0 <= j ==> s[j + 1..] == s[..|s| - 1][j + 1..] + [s[|s| - 1]];
      j
  }

  /** The last separator of `a + [c] + b` is the one between them when `b` has none. */
  lemma {:induction false} LastIndexOfConcat(a: string, b: string, c: char)
    requires c !in b
    ensures LastIndexOf(a + [c] + b, c) == |a|
    decreases |b|
  {
    if b != [] {
      var s := a + [c] + b;
      assert s[..|s| - 1] == a + [c] + b[..|b| - 1];
      LastIndexOfConcat(a, b[..|b| - 1], c);
    }
  }

  /** strings.Split(s, string(sep)): the pieces between separators, always at least one. */
  function Split(s: string, sep: char): (parts: seq<string>)
    ensures |parts| >= 1
    ensures forall i :: 0 <= i < |parts| ==> sep !in parts[i]
    decreases |s|
  {
    if s == [] then [""]
    else
      var rest := Split(s[1..], sep);
      if s[0] == sep then [""] + rest
      else [[s[0]] + rest[0]] + rest[1..]
  }

  /** strings.Join(parts, string(sep)) */
  function JoinWith(parts: seq<string>, sep: char): string
    decreases |parts|
  {
    if |parts| == 0 then ""
    else if |parts| == 1 then parts[0]
    else parts[0] + [sep] + JoinWith(parts[1..], sep)
  }

  /**
   * strings.SplitN(s, string(sep), 2): the text before the first separator and
   * the text after it, or the whole string when there is no separator.
   */
  function SplitN2(s: string, sep: char): (parts: seq<string>)
    ensures sep !in s ==> parts == [s]
    ensures sep in s ==> |parts| == 2 && sep !in parts[0] && s == parts[0] + [sep] + parts[1]
  {
    var i := IndexOf(s, sep);
    if i < 0 then [s] else [s[..i], s[i + 1..]]
  }

  /** The first separator of `a + [c] + b` is the one between them when `a` has none. */
  lemma {:induction false} IndexOfConcat(a: string, b: string, c: char)
    requires c !in a
    ensures IndexOf(a + [c] + b, c) == |a|
    decreases |a|
  {
    if a != [] {
      assert (a + [c] + b)[1..] == a[1..] + [c] + b;
      IndexOfConcat(a[1..], b, c);
    }
  }

  /** SplitN at a separator preceded by none: the text before it and the text after it. */
  lemma SplitN2Concat(a: string, b: string, c: char)
    requires c !in a
    ensures SplitN2(a + [c] + b, c) == [a, b]
  {
    IndexOfConcat(a, b, c);
    var s := a + [c] + b;
    assert s[..|a|] == a;
    assert s[|a| + 1..] == b;
  }

  /** strings.TrimLeft(s, string(c)): drops every leading c. */
  function TrimLeft(s: string, c: char): (r: string)
    ensures |r| <= |s| && r == s[|s| - |r|..]
    ensures r == [] || r[0] != c
    ensures forall i :: 0 <= i < |s| - |r| ==> s[i] == c
    decreases |s|
  {
    if s != [] && s[0] == c then TrimLeft(s[1..], c) else s
  }

  /** strings.TrimRight(s, string(c)): drops every trailing c. */
  function TrimRight(s: string, c: char): (r: string)
    ensures |r| <= |s| && r == s[..|r|]
    ensures r == [] || r[|r| - 1] != c
    ensures forall i :: |r| <= i < |s| ==> s[i] == c
    decreases |s|
  {
    if s != [] && s[|s| - 1] == c then TrimRight(s[..|s| - 1], c) else s
  }

  /** strings.Trim(s, string(c)) */
  function Trim(s: string, c: char): string {
    TrimRight(TrimLeft(s, c), c)
  }

  /** Trimming `c` from `[c] + body` removes exactly that `c` when `body` neither starts nor ends with it. */
  lemma TrimOneLeading(body: string, c: char)
    requires body != [] && body[0] != c && body[|body| - 1] != c
    ensures Trim([c] + body, c) == body
  {
    assert ([c] + body)[1..] == body;
  }

  /** Splitting at a separator distributes over the two sides of it. */
  lemma {:induction false} SplitConcat(a: string, b: string, sep: char)
    ensures Split(a + [sep] + b, sep) == Split(a, sep) + Split(b, sep)
    decreases |a|
  {
    if a == [] {
      assert a + [sep] + b == [sep] + b;
      assert ([sep] + b)[1..] == b;
    } else {
      assert (a + [sep] + b)[1..] == a[1..] + [sep] + b;
      SplitConcat(a[1..], b, sep);
    }
  }

  /** A first piece without separator splits off as the first part. */
  lemma SplitHead(a: string, b: string, sep: char)
    requires sep !in a
    ensures Split(a + [sep] + b, sep) == [a] + Split(b, sep)
  {
    SplitConcat(a, b, sep);
    SplitNoSep(a, sep);
  }

  /** Two separators in a row give an empty part between them. */
  lemma SplitEmptyMiddle(a: string, b: string, sep: char)
    requires sep !in a && sep !in b
    ensures Split(a + [sep, sep] + b, sep) == [a, [], b]
  {
    assert a + [sep, sep] + b == a + [sep] + ([] + [sep] + b);
    SplitHead(a, [] + [sep] + b, sep);
    SplitHead([], b, sep);
    SplitNoSep(b, sep);
  }

  /** A string with no separator splits into itself. */
  lemma {:induction false} SplitNoSep(a: string, sep: char)
    requires sep !in a
    ensures Split(a, sep) == [a]
    decreases |a|
  {
    if a != [] {
      assert sep !in a[1..];
      SplitNoSep(a[1..], sep);
      assert [a[0]] + a[1..] == a;
    }
  }

  /** Splitting undoes joining when no piece contains the separator. */
  lemma {:induction false} SplitJoin(parts: seq<string>, sep: char)
    requires |parts| >= 1
    requires forall i :: 0 <= i < |parts| ==> sep !in parts[i]
    ensures Split(JoinWith(parts, sep), sep) == parts
    decreases |parts|
  {
    SplitNoSep(parts[0], sep);
    if |parts| > 1 {
      SplitJoin(parts[1..], sep);
      SplitConcat(parts[0], JoinWith(parts[1..], sep), sep);
      assert [parts[0]] + parts[1..] == parts;
    }
  }

  /** Joining undoes splitting, for every string. */
  lemma {:induction false} JoinSplit(s: string, sep: char)
    ensures JoinWith(Split(s, sep), sep) == s
    decreases |s|
  {
    if s != [] {
      var rest := Split(s[1..], sep);
      JoinSplit(s[1..], sep);
      if s[0] == sep {
        assert ([""] + rest)[1..] == rest;
      } else {
        var parts := [[s[0]] + rest[0]] + rest[1..];
        assert parts[1..] == rest[1..];
        if |rest| > 1 {
          assert JoinWith(rest, sep) == rest[0] + [sep] + JoinWith(rest[1..], sep);
        }
      }
    }
  }

  /** Joining pieces that all start without the separator: the first piece leads. */
  lemma JoinWithHead(parts: seq<string>, sep: char)
    requires |parts| >= 1
    ensures HasPrefix(JoinWith(parts, sep), parts[0])
    ensures |parts| == 1 ==> JoinWith(parts, sep) == parts[0]
    ensures |parts| > 1 ==> JoinWith(parts, sep) == parts[0] + [sep] + JoinWith(parts[1..], sep)
  {
  }

  /** Trimming trailing characters stops at the first non-trimmed one of the right operand. */
  lemma {:induction false} TrimRightConcat(a: string, b: string, c: char)
    requires TrimRight(b, c) != [] || a == [] || a[|a| - 1] != c
    ensures TrimRight(a + b, c) == a + TrimRight(b, c)
    decreases |b|
  {
    if b != [] && b[|b| - 1] == c {
      assert (a + b)[..|a + b| - 1] == a + b[..|b| - 1];
      TrimRightConcat(a, b[..|b| - 1], c);
    } else {
      assert a + b == a + b[..|b|];
    }
  }

  /** Trimming leading characters never looks past a character that is kept. */
  lemma TrimLeftConcat(a: string, b: string, c: char)
    requires a != [] && a[0] != c
    ensures TrimLeft(a + b, c) == a + b
  {
  }
}
