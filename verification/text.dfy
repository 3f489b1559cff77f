/**
  The Python `str` operations the chunker and the embedder rely on, on
  `seq<char>`: `strip`, `startswith`, `in`, `count`, `split("\n")`,
  `sep.join(...)` and slicing with clamped bounds. Text is treated as one
  character per byte (ASCII), so byte offsets index characters directly.
 */
module Text {

  /** Characters Python's `str.isspace()` accepts, restricted to ASCII. */
  const Whitespace: set<char> :=
    {' ', '\t', '\n', '\r', '\U{0B}', '\U{0C}', '\U{1C}', '\U{1D}', '\U{1E}', '\U{1F}'}

  /** List concatenation regroups freely; the lists built by repeated
      appends are compared with this. */
  lemma {:induction false} AppendAssoc<T>(a: seq<T>, b: seq<T>, c: seq<T>)
    ensures (a + b) + c == a + (b + c)
  {
  }

  /** The elements after the head of `[x] + rest` are those of `rest`. */
  lemma {:induction false} ConsIndex<T>(xs: seq<T>, x: T, rest: seq<T>, k: nat)
    requires xs == [x] + rest && 1 <= k < |xs|
    ensures xs[k] == rest[k - 1] && xs[k] in rest
  {
  }

  /** Every element of `a` is an element of `b`. */
  ghost predicate Within<T>(a: seq<T>, b: seq<T>) {
    forall x :: x in a ==> x in b
  }

  /** Both operands of a concatenation lie within it, and containment chains. */
  lemma {:induction false} WithinAppend<T>(a: seq<T>, b: seq<T>)
    ensures Within(a, a + b) && Within(b, a + b)
  {
  }

  lemma {:induction false} WithinTransitive<T>(a: seq<T>, b: seq<T>, c: seq<T>)
    requires Within(a, b) && Within(b, c)
    ensures Within(a, c)
  {
  }

  /** `xs` is `ys` with some elements left out and the rest kept in order. */
  ghost predicate Subsequence<T>(xs: seq<T>, ys: seq<T>)
    decreases |ys|
  {
    if xs == [] then true
    else if ys == [] then false
    else (xs[0] == ys[0] && Subsequence(xs[1..], ys[1..])) || Subsequence(xs, ys[1..])
  }

  lemma {:induction false} SubsequenceCons<T>(x: T, xs: seq<T>, ys: seq<T>)
    requires Subsequence(xs, ys)
    ensures Subsequence([x] + xs, [x] + ys)
  {
    assert ([x] + xs)[1..] == xs && ([x] + ys)[1..] == ys;
  }

  /** Elements put in front of `ys` may be left out. */
  lemma {:induction false} SubsequenceExtend<T>(xs: seq<T>, pre: seq<T>, ys: seq<T>)
    requires Subsequence(xs, ys)
    ensures Subsequence(xs, pre + ys)
    decreases |pre|
  {
    if pre != [] {
      SubsequenceExtend(xs, pre[1..], ys);
      assert (pre + ys)[1..] == pre[1..] + ys;
    } else {
      assert pre + ys == ys;
    }
  }

  /** Subsequences of two lists concatenate to a subsequence of their
      concatenation. */
  lemma {:induction false} SubsequenceAppend<T>(a: seq<T>, x: seq<T>, b: seq<T>, y: seq<T>)
    requires Subsequence(a, x) && Subsequence(b, y)
    ensures Subsequence(a + b, x + y)
    decreases |x|
  {
    if a == [] {
      assert a + b == b;
      SubsequenceExtend(b, x, y);
    } else {
      assert (x + y)[1..] == x[1..] + y;
      assert (a + b)[1..] == a[1..] + b;
      if a[0] == x[0] && Subsequence(a[1..], x[1..]) {
        SubsequenceAppend(a[1..], x[1..], b, y);
      } else {
        SubsequenceAppend(a, x[1..], b, y);
      }
    }
  }

  /** Every element of a subsequence is an element of the whole. */
  lemma {:induction false} SubsequenceWithin<T>(xs: seq<T>, ys: seq<T>)
    requires Subsequence(xs, ys)
    ensures Within(xs, ys)
    decreases |ys|
  {
    if xs != [] {
      if xs[0] == ys[0] && Subsequence(xs[1..], ys[1..]) {
        SubsequenceWithin(xs[1..], ys[1..]);
        assert xs == [xs[0]] + xs[1..] && ys == [ys[0]] + ys[1..];
      } else {
        SubsequenceWithin(xs, ys[1..]);
        assert ys == [ys[0]] + ys[1..];
      }
    }
  }

  /** A subsequence picks its elements at strictly increasing positions. */
  lemma {:induction false} SubsequencePositions<T>(xs: seq<T>, ys: seq<T>) returns (idx: seq<nat>)
    requires Subsequence(xs, ys)
    ensures |idx| == |xs|
    ensures forall k :: 0 <= k < |idx| ==> idx[k] < |ys| && ys[idx[k]] == xs[k]
    ensures forall j, k :: 0 <= j < k < |idx| ==> idx[j] < idx[k]
    decreases |ys|
  {
    if xs == [] {
      idx := [];
    } else if xs[0] == ys[0] && Subsequence(xs[1..], ys[1..]) {
      var rest := SubsequencePositions(xs[1..], ys[1..]);
      idx := [0] + seq(|rest|, k requires 0 <= k < |rest| => rest[k] + 1);
    } else {
      var rest := SubsequencePositions(xs, ys[1..]);
      idx := seq(|rest|, k requires 0 <= k < |rest| => rest[k] + 1);
    }
  }

  /** The quote characters removed by `.strip("\"'")`. */
  const QuoteChars: set<char> := {'"', '\''}

  predicate IsPrefix(p: string, s: string) {
    |p| <= |s| && s[..|p|] == p
  }

  /** `s.startswith(p)`. */
  predicate StartsWith(s: string, p: string) {
    IsPrefix(p, s)
  }

  /** `t` occurs in `s` as a contiguous block. */
  ghost predicate IsInfix(t: string, s: string) {
    exists a, b :: 0 <= a <= b <= |s| && t == s[a..b]
  }

  /** `p in s` for strings. */
  predicate Contains(s: string, p: string)
    decreases |s|
  {
    StartsWith(s, p) || (s != [] && Contains(s[1..], p))
  }

  /** `s.count(p)` for a non-empty `p`: non-overlapping occurrences, scanned left to right. */
  function Count(s: string, p: string): (n: nat)
    requires p != []
    ensures n > 0 ==> Contains(s, p)
    decreases |s|
  {
    if |s| < |p| then 0
    else if s[..|p|] == p then 1 + Count(s[|p|..], p)
    else Count(s[1..], p)
  }

  /** Removes the leading characters that belong to `cs`. */
  function TrimLeft(s: string, cs: set<char>): (r: string)
    ensures |r| <= |s|
    decreases |s|
  {
    if s != [] && s[0] in cs then TrimLeft(s[1..], cs) else s
  }

  /** Removes the trailing characters that belong to `cs`. */
  function TrimRight(s: string, cs: set<char>): (r: string)
    ensures |r| <= |s|
    decreases |s|
  {
    if s != [] && s[|s| - 1] in cs then TrimRight(s[..|s| - 1], cs) else s
  }

  /** `TrimLeft` cuts exactly the leading run of `cs` characters. */
  lemma {:induction false} TrimLeftSpec(s: string, cs: set<char>)
    ensures TrimLeft(s, cs) == s[|s| - |TrimLeft(s, cs)|..]
    ensures forall i :: 0 <= i < |s| - |TrimLeft(s, cs)| ==> s[i] in cs
    ensures TrimLeft(s, cs) != [] ==> TrimLeft(s, cs)[0] !in cs
    decreases |s|
  {
    if s != [] && s[0] in cs {
      TrimLeftSpec(s[1..], cs);
    }
  }

  /** `TrimRight` cuts exactly the trailing run of `cs` characters. */
  lemma {:induction false} TrimRightSpec(s: string, cs: set<char>)
    ensures TrimRight(s, cs) == s[..|TrimRight(s, cs)|]
    ensures forall i :: |TrimRight(s, cs)| <= i < |s| ==> s[i] in cs
    ensures TrimRight(s, cs) != [] ==> TrimRight(s, cs)[|TrimRight(s, cs)| - 1] !in cs
    decreases |s|
  {
    if s != [] && s[|s| - 1] in cs {
      TrimRightSpec(s[..|s| - 1], cs);
    }
  }

  /** `r` is `s` with a run of `cs` characters cut from each end, and no more. */
  predicate IsStripOf(r: string, s: string, cs: set<char>, a: nat) {
    a + |r| <= |s| && r == s[a..a + |r|] &&
    (forall i :: 0 <= i < a ==> s[i] in cs) &&
    (forall i :: a + |r| <= i < |s| ==> s[i] in cs) &&
    (r != [] ==> r[0] !in cs && r[|r| - 1] !in cs)
  }

  /** `s.strip(cs)`: leading, then trailing characters of `cs` removed. */
  function StripChars(s: string, cs: set<char>): (r: string)
    ensures |r| <= |s|
  {
    TrimRight(TrimLeft(s, cs), cs)
  }

  /** `s.strip()`. */
  function Strip(s: string): (r: string)
    ensures |r| <= |s|
  {
    StripChars(s, Whitespace)
  }

  /** Stripping removes a run of `cs` characters at each end and stops at the
      first and last characters outside `cs`. */
  lemma {:induction false} StripCharsSpec(s: string, cs: set<char>)
    ensures IsStripOf(StripChars(s, cs), s, cs, |s| - |TrimLeft(s, cs)|)
  {
    var l := TrimLeft(s, cs);
    TrimLeftSpec(s, cs);
    TrimRightSpec(l, cs);
    var a := |s| - |l|;
    var r := StripChars(s, cs);
    assert l == s[a..];
    assert r == l[..|r|];
    assert r == s[a..a + |r|];
    forall i | a + |r| <= i < |s| ensures s[i] in cs {
      assert s[i] == l[i - a];
    }
  }

  /** `s[a:b]` for non-negative bounds: both are clamped to the length, and a
      reversed range gives the empty string. */
  function Slice(s: string, a: nat, b: nat): (r: string)
    ensures |r| <= |s|
    ensures a <= b <= |s| ==> r == s[a..b]
    ensures a <= |s| <= b ==> r == s[a..]
    ensures b <= a ==> r == []
  {
    var lo := if a <= |s| then a else |s|;
    var hi := if b <= |s| then b else |s|;
    if lo <= hi then s[lo..hi] else []
  }

  lemma {:induction false} SliceIsInfix(s: string, a: nat, b: nat)
    ensures IsInfix(Slice(s, a, b), s)
  {
    var lo := if a <= |s| then a else |s|;
    var hi := if b <= |s| then b else |s|;
    if lo <= hi {
      assert Slice(s, a, b) == s[lo..hi];
    } else {
      assert Slice(s, a, b) == s[0..0];
    }
  }

  /** `s.split("\n")`: never empty, and no piece holds a newline. */
  function SplitLines(s: string): (r: seq<string>)
    ensures |r| >= 1
    ensures forall i :: 0 <= i < |r| ==> '\n' !in r[i]
    decreases |s|
  {
    if s == [] then [[]]
    else
      var rest := SplitLines(s[1..]);
      if s[0] == '\n' then [[]] + rest
      else [[s[0]] + rest[0]] + rest[1..]
  }

  /** `sep.join(xs)`. */
  function JoinWith(xs: seq<string>, sep: string): string
    decreases |xs|
  {
    if |xs| == 0 then []
    else if |xs| == 1 then xs[0]
    else xs[0] + sep + JoinWith(xs[1..], sep)
  }

  /** Joining the pieces of a split gives back the original text. */
  lemma {:induction false} JoinSplitLines(s: string)
    ensures JoinWith(SplitLines(s), "\n") == s
    decreases |s|
  {
    if s != [] {
      var rest := SplitLines(s[1..]);
      JoinSplitLines(s[1..]);
      if s[0] == '\n' {
        assert SplitLines(s) == [[]] + rest;
        assert ([[]] + rest)[1..] == rest;
      } else {
        var r := SplitLines(s);
        assert r == [[s[0]] + rest[0]] + rest[1..];
        if |rest| == 1 {
          assert JoinWith(rest, "\n") == rest[0];
        } else {
          assert r[1..] == rest[1..];
          assert JoinWith(rest, "\n") == rest[0] + "\n" + JoinWith(rest[1..], "\n");
          assert JoinWith(r, "\n") == ([s[0]] + rest[0]) + "\n" + JoinWith(rest[1..], "\n");
        }
        assert s == [s[0]] + s[1..];
      }
    }
  }

  /** Splitting a line followed by a newline peels that line off. */
  lemma {:induction false} SplitLinesAfterLine(x: string, y: string)
    requires '\n' !in x
    ensures SplitLines(x + "\n" + y) == [x] + SplitLines(y)
    decreases |x|
  {
    if x == [] {
      assert x + "\n" + y == ['\n'] + y;
      assert (['\n'] + y)[1..] == y;
    } else {
      SplitLinesAfterLine(x[1..], y);
      var s := x + "\n" + y;
      assert s[0] == x[0] && s[1..] == x[1..] + "\n" + y;
      assert x == [x[0]] + x[1..];
    }
  }

  /** A text without newlines splits into itself alone. */
  lemma {:induction false} SplitLinesSingle(x: string)
    requires '\n' !in x
    ensures SplitLines(x) == [x]
    decreases |x|
  {
    if x != [] {
      SplitLinesSingle(x[1..]);
      assert x == [x[0]] + x[1..];
    }
  }

  /** Splitting a joined list of newline-free lines gives back the lines. */
  lemma {:induction false} SplitJoinLines(lines: seq<string>)
    requires |lines| >= 1
    requires forall i :: 0 <= i < |lines| ==> '\n' !in lines[i]
    ensures SplitLines(JoinWith(lines, "\n")) == lines
    decreases |lines|
  {
    if |lines| == 1 {
      SplitLinesSingle(lines[0]);
    } else {
      SplitJoinLines(lines[1..]);
      SplitLinesAfterLine(lines[0], JoinWith(lines[1..], "\n"));
      assert lines == [lines[0]] + lines[1..];
    }
  }

  /** Joining a prefix of the pieces gives a prefix of the joined text. */
  lemma {:induction false} JoinPrefix(xs: seq<string>, k: nat, sep: string)
    requires k <= |xs|
    ensures IsPrefix(JoinWith(xs[..k], sep), JoinWith(xs, sep))
    decreases k
  {
    if k == 1 {
      assert xs[..1] == [xs[0]];
      if |xs| > 1 {
        assert JoinWith(xs, sep) == xs[0] + (sep + JoinWith(xs[1..], sep));
      }
    } else if k >= 2 {
      JoinPrefix(xs[1..], k - 1, sep);
      assert xs[..k][1..] == xs[1..][..k - 1];
      var p := JoinWith(xs[1..][..k - 1], sep);
      var w := JoinWith(xs[1..], sep);
      assert JoinWith(xs[..k], sep) == xs[0] + sep + p;
      assert JoinWith(xs, sep) == xs[0] + sep + w;
      assert w[..|p|] == p;
      assert (xs[0] + sep + w)[..|xs[0] + sep + p|] == xs[0] + sep + w[..|p|];
    }
  }

  /** The joined text ends with the last piece. */
  lemma {:induction false} JoinEndsWithLast(xs: seq<string>, sep: string)
    requires |xs| >= 1
    ensures var joined := JoinWith(xs, sep); var last := xs[|xs| - 1];
      |last| <= |joined| && joined == joined[..|joined| - |last|] + last
    decreases |xs|
  {
    var last := xs[|xs| - 1];
    if |xs| == 1 {
      assert JoinWith(xs, sep) == last;
    } else {
      var rest := JoinWith(xs[1..], sep);
      JoinEndsWithLast(xs[1..], sep);
      assert xs[1..][|xs| - 2] == last;
      var pre := rest[..|rest| - |last|];
      assert rest == pre + last;
      assert JoinWith(xs, sep) == (xs[0] + sep + pre) + last;
    }
  }

  lemma {:induction false} PrefixOfAppend(p: string, s: string)
    ensures IsPrefix(p, p + s)
  {
    assert (p + s)[..|p|] == p;
  }

  lemma {:induction false} PrefixTransitive(p: string, q: string, s: string)
    requires IsPrefix(p, q) && IsPrefix(q, s)
    ensures IsPrefix(p, s)
  {
    assert s[..|p|] == q[..|p|];
  }

  lemma {:induction false} PrefixIsInfix(p: string, s: string)
    requires IsPrefix(p, s)
    ensures IsInfix(p, s)
  {
    assert p == s[0..|p|];
  }

  /** An infix of an infix of `s` is an infix of `s`. */
  lemma {:induction false} InfixTransitive(t: string, u: string, s: string)
    requires IsInfix(t, u) && IsInfix(u, s)
    ensures IsInfix(t, s)
  {
    var a, b :| 0 <= a <= b <= |u| && t == u[a..b];
    var c, d :| 0 <= c <= d <= |s| && u == s[c..d];
    assert c + b <= d;
    assert forall i :: 0 <= i < b - a ==> t[i] == u[a + i] == s[c + a + i];
    assert t == s[c + a..c + b];
  }

  /** Removing `cs` characters from the front stops at the first other character. */
  lemma {:induction false} TrimLeftPast(p: string, y: string, cs: set<char>)
    requires forall i :: 0 <= i < |p| ==> p[i] in cs
    requires y != [] ==> y[0] !in cs
    ensures TrimLeft(p + y, cs) == (if y == [] then [] else y)
    decreases |p|
  {
    if p != [] {
      assert (p + y)[1..] == p[1..] + y;
      TrimLeftPast(p[1..], y, cs);
    } else {
      assert p + y == y;
    }
  }

  lemma {:induction false} TrimRightPast(y: string, s: string, cs: set<char>)
    requires forall i :: 0 <= i < |s| ==> s[i] in cs
    requires y != [] ==> y[|y| - 1] !in cs
    ensures TrimRight(y + s, cs) == y
    decreases |s|
  {
    if s != [] {
      assert (y + s)[..|y + s| - 1] == y + s[..|s| - 1];
      TrimRightPast(y, s[..|s| - 1], cs);
    } else {
      assert y + s == y;
      if y != [] {
        assert (y + s)[|y + s| - 1] == y[|y| - 1];
      }
    }
  }

  /** Stripping removes exactly the runs of `cs` around a core that neither
      starts nor ends with a `cs` character. */
  lemma {:induction false} StripAround(p: string, y: string, s: string, cs: set<char>)
    requires forall i :: 0 <= i < |p| ==> p[i] in cs
    requires forall i :: 0 <= i < |s| ==> s[i] in cs
    requires y != [] ==> y[0] !in cs && y[|y| - 1] !in cs
    ensures StripChars(p + y + s, cs) == y
  {
    if y == [] {
      assert p + y + s == (p + s) + [];
      assert forall i :: 0 <= i < |p + s| ==> (p + s)[i] in cs;
      TrimLeftPast(p + s, [], cs);
    } else {
      assert p + y + s == p + (y + s);
      TrimLeftPast(p, y + s, cs);
      TrimRightPast(y, s, cs);
    }
  }

  /** A string whose first character never occurs in `s` is not in `s`. */
  lemma {:induction false} NotContains(s: string, p: string)
    requires p != [] && p[0] !in s
    ensures !Contains(s, p)
    decreases |s|
  {
    if s != [] {
      assert s[0] in s;
      assert forall c :: c in s[1..] ==> c in s;
      NotContains(s[1..], p);
    }
  }
}
