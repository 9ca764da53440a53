/**
 * The `str` operations the parsers and readers rely on: `splitn`, `split`
 * and `lines`, with `Join` (the separator-joining inverse) as their partner.
 * A Rust `&str` is modelled as a `string`; chars stand for the ASCII
 * separators involved, which are single bytes in UTF-8.
 */
module Text {

  /** `c` does not occur in `s`. */
  predicate Excludes(s: string, c: char)
  {
    forall j :: 0 <= j < |s| ==> s[j] != c
  }

  /** Index of the first `c` in `s`, or `|s|` when `c` does not occur. */
  function IndexOf(s: string, c: char): (i: nat)
    ensures i <= |s|
    ensures i < |s| ==> s[i] == c

  {
    if s == [] then 0
    else if s[0] == c then 0
    else 1 + IndexOf(s[1..], c)
  }

  /** Number of occurrences of `c` in `s`. */
  function Count(s: string, c: char): (n: nat)
    ensures n <= |s|
  {
    if s == [] then 0
    else (if s[0] == c then 1 else 0) + Count(s[1..], c)
  }

  lemma {:induction false} CountAbsent(s: string, c: char)
    requires Excludes(s, c)
    ensures Count(s, c) == 0
  {
    if s != [] {
      assert s[0] != c;
      CountAbsent(s[1..], c);
    }
  }

  lemma {:induction false} CountAppend(a: string, b: string, c: char)
    ensures Count(a + b, c) == Count(a, c) + Count(b, c)
  {
    if a == [] {
      assert a + b == b;
    } else {
      assert (a + b)[1..] == a[1..] + b;
      CountAppend(a[1..], b, c);
    }
  }

  /** Counting across the first occurrence of `c`. */
  lemma CountAround(pre: string, c: char, post: string)
    requires Excludes(pre, c)
    ensures Count(pre + [c] + post, c) == 1 + Count(post, c)
  {
    CountAbsent(pre, c);
    assert pre + [c] + post == pre + ([c] + post);
    assert ([c] + post)[1..] == post;
    CountAppend(pre, [c] + post, c);
  }

  /** `parts.join(sep)`. */
  function Join(parts: seq<string>, sep: char): string
  {
    if |parts| == 0 then ""
    else if |parts| == 1 then parts[0]
    else parts[0] + [sep] + Join(parts[1..], sep)
  }

  /** In `a + [c] + b` with `c` not in `a`, the first `c` is the one after `a`. */
  lemma {:induction false} FirstOccurrence(a: string, c: char, b: string)
    requires Excludes(a, c)
    ensures IndexOf(a + [c] + b, c) == |a|
    ensures (a + [c] + b)[..|a|] == a && (a + [c] + b)[|a| + 1..] == b
  {
    var s := a + [c] + b;
    if a != [] {
      assert s[0] == a[0] != c;
      assert s[1..] == a[1..] + [c] + b;
      FirstOccurrence(a[1..], c, b);
    }
  }

  /** No `c` comes before the first one. */
  lemma {:induction false} IndexOfBefore(s: string, c: char)
    ensures Excludes(s[..IndexOf(s, c)], c)
  {
    if s != [] && s[0] != c {
      IndexOfBefore(s[1..], c);
      var i := IndexOf(s, c);
      assert s[..i] == [s[0]] + s[1..][..i - 1];
    }
  }

  /**
   * A text either lacks `c`, or is the part before its first `c`, that `c`,
   * and the part after.
   */
  lemma Occurrence(s: string, c: char) returns (found: bool, pre: string, post: string)
    ensures !found ==> Excludes(s, c)
    ensures found ==> s == pre + [c] + post && Excludes(pre, c)
  {
    var i := IndexOf(s, c);
    IndexOfBefore(s, c);
    found := i < |s|;
    if found {
      pre, post := s[..i], s[i + 1..];
      assert s == pre + [c] + post;
    } else {
      assert s[..i] == s;
      pre, post := s, "";
    }
  }

  /** The first `c` comes no later than any `c`. */
  lemma {:induction false} IndexOfAtMost(s: string, c: char, j: nat)
    requires j < |s| && s[j] == c
    ensures IndexOf(s, c) <= j
  {
    if s[0] != c {
      IndexOfAtMost(s[1..], c, j - 1);
    }
  }

  /** A text without `c` has no first occurrence of it. */
  lemma {:induction false} IndexOfAbsent(s: string, c: char)
    requires Excludes(s, c)
    ensures IndexOf(s, c) == |s|
  {
    if s != [] {
      assert s[0] != c;
      IndexOfAbsent(s[1..], c);
    }
  }

  lemma JoinCons(first: string, rest: seq<string>, sep: char)
    requires |rest| >= 1
    ensures Join([first] + rest, sep) == first + [sep] + Join(rest, sep)
  {
    assert ([first] + rest)[1..] == rest;
  }

  /** A separator occurs in a join only where it was put or where a part had it. */
  lemma {:induction false} JoinExcludes(parts: seq<string>, sep: char, x: char)
    requires x != sep
    requires forall k :: 0 <= k < |parts| ==> Excludes(parts[k], x)
    ensures Excludes(Join(parts, sep), x)
  {
    if |parts| > 1 {
      JoinExcludes(parts[1..], sep, x);
    }
  }

  /** A join ends in `'\r'` only if its last part does (or the separator is `'\r'`). */
  lemma {:induction false} JoinNotEndsWithCR(parts: seq<string>, sep: char)
    requires |parts| >= 1 && sep != '\r'
    requires !EndsWithCR(parts[|parts| - 1])
    ensures !EndsWithCR(Join(parts, sep))
  {
    if |parts| > 1 {
      JoinNotEndsWithCR(parts[1..], sep);
      var tail := Join(parts[1..], sep);
      var s := parts[0] + [sep] + tail;
      if tail != [] {
        assert s[|s| - 1] == tail[|tail| - 1];
      } else {
        assert s[|s| - 1] == sep;
      }
    }
  }

  /**
   * `s.splitn(n, c)`: at most `n` pieces; the last piece is everything after
   * the `(n-1)`-th separator, separators included.
   */
  function SplitN(s: string, c: char, n: nat): (r: seq<string>)
    requires n >= 1
    ensures 1 <= |r| <= n
    decreases n
  {
    if n == 1 then [s]
    else
      var i := IndexOf(s, c);
      if i == |s| then [s]
      else [s[..i]] + SplitN(s[i + 1..], c, n - 1)
  }

  /** `splitn` on a text without the separator gives the text. */
  lemma SplitNNone(s: string, c: char, n: nat)
    requires n >= 1 && Excludes(s, c)
    ensures SplitN(s, c, n) == [s]
  {
    if n > 1 {
      IndexOfAbsent(s, c);
    }
  }

  /** One step of `splitn` on a text whose first `c` follows `a`. */
  lemma SplitNStep(a: string, c: char, b: string, n: nat)
    requires n > 1 && Excludes(a, c)
    ensures SplitN(a + [c] + b, c, n) == [a] + SplitN(b, c, n - 1)
  {
    FirstOccurrence(a, c, b);
  }

  /**
   * No piece of `splitn` but the last holds the separator; neither does the
   * last when there are fewer than `n` pieces.
   */
  lemma {:induction false} SplitNPieces(s: string, c: char, n: nat)
    requires n >= 1
    ensures forall k :: 0 <= k < |SplitN(s, c, n)| && (k < |SplitN(s, c, n)| - 1 || |SplitN(s, c, n)| < n) ==>
                          Excludes(SplitN(s, c, n)[k], c)
    decreases n
  {
    if n > 1 {
      var found, pre, post := Occurrence(s, c);
      if !found {
        SplitNNone(s, c, n);
      } else {
        SplitNStep(pre, c, post, n);
        SplitNPieces(post, c, n - 1);
        var rest := SplitN(post, c, n - 1);
        var r := [pre] + rest;
        forall k | 0 <= k < |r| && (k < |r| - 1 || |r| < n) ensures Excludes(r[k], c) {
          if k == 0 {
            assert r[k] == pre;
          } else {
            assert r[k] == rest[k - 1];
            assert Excludes(rest[k - 1], c);
          }
        }
      }
    }
  }

  /** Joining the pieces of `splitn` gives back the text. */
  lemma {:induction false} SplitNJoin(s: string, c: char, n: nat)
    requires n >= 1
    ensures Join(SplitN(s, c, n), c) == s
    decreases n
  {
    if n > 1 {
      var found, pre, post := Occurrence(s, c);
      if !found {
        SplitNNone(s, c, n);
      } else {
        SplitNStep(pre, c, post, n);
        JoinCons(pre, SplitN(post, c, n - 1), c);
        SplitNJoin(post, c, n - 1);
      }
    }
  }

  /** `splitn` yields one piece per separator plus one, capped at `n`. */
  lemma {:induction false} SplitNLength(s: string, c: char, n: nat)
    requires n >= 1
    ensures Count(s, c) < n - 1 ==> |SplitN(s, c, n)| == Count(s, c) + 1
    ensures Count(s, c) >= n - 1 ==> |SplitN(s, c, n)| == n
    decreases n
  {
    if n > 1 {
      var found, pre, post := Occurrence(s, c);
      if !found {
        SplitNNone(s, c, n);
        CountAbsent(s, c);
      } else {
        SplitNStep(pre, c, post, n);
        SplitNLength(post, c, n - 1);
        CountAround(pre, c, post);
      }
    }
  }

  /**
   * `splitn` undoes `Join`: pieces of which all but the last are free of the
   * separator (and the last too, when fewer than `n`) come back unchanged.
   */
  lemma {:induction false} SplitNOfJoin(parts: seq<string>, c: char, n: nat)
    requires 1 <= |parts| <= n
    requires forall k :: 0 <= k < |parts| - 1 ==> Excludes(parts[k], c)
    requires |parts| < n ==> Excludes(parts[|parts| - 1], c)
    ensures SplitN(Join(parts, c), c, n) == parts
    decreases n, 1
  {
    if |parts| == 1 {
      if n > 1 {
        SplitNNone(parts[0], c, n);
      }
    } else {
      SplitNOfJoinCons(parts[0], parts[1..], c, n);
      assert parts == [parts[0]] + parts[1..];
    }
  }

  lemma {:induction false} SplitNOfJoinCons(first: string, rest: seq<string>, c: char, n: nat)
    requires 1 <= |rest| < n
    requires Excludes(first, c)
    requires forall k :: 0 <= k < |rest| - 1 ==> Excludes(rest[k], c)
    requires |rest| < n - 1 ==> Excludes(rest[|rest| - 1], c)
    ensures SplitN(Join([first] + rest, c), c, n) == [first] + rest
    decreases n, 0
  {
    JoinCons(first, rest, c);
    SplitNStep(first, c, Join(rest, c), n);
    SplitNOfJoin(rest, c, n - 1);
  }

  /** `s.split(c)`: every piece between separators; `""` gives `[""]`. */
  function Split(s: string, c: char): (r: seq<string>)
    ensures |r| >= 1
    decreases |s|
  {
    var i := IndexOf(s, c);
    if i == |s| then [s]
    else [s[..i]] + Split(s[i + 1..], c)
  }

  /** `split` on a text without the separator gives the text. */
  lemma SplitNone(s: string, c: char)
    requires Excludes(s, c)
    ensures Split(s, c) == [s]
  {
    IndexOfAbsent(s, c);
  }

  /** One step of `split` on a text whose first `c` follows `a`. */
  lemma SplitStep(a: string, c: char, b: string)
    requires Excludes(a, c)
    ensures Split(a + [c] + b, c) == [a] + Split(b, c)
  {
    FirstOccurrence(a, c, b);
  }

  /** No piece of `split` holds the separator. */
  lemma {:induction false} SplitPieces(s: string, c: char)
    ensures forall k :: 0 <= k < |Split(s, c)| ==> Excludes(Split(s, c)[k], c)
    decreases |s|
  {
    var found, pre, post := Occurrence(s, c);
    if !found {
      SplitNone(s, c);
    } else {
      SplitStep(pre, c, post);
      SplitPieces(post, c);
      var rest := Split(post, c);
      var r := [pre] + rest;
      forall k | 0 <= k < |r| ensures Excludes(r[k], c) {
        if k == 0 {
          assert r[k] == pre;
        } else {
          assert r[k] == rest[k - 1];
          assert Excludes(rest[k - 1], c);
        }
      }
    }
  }

  /** Joining the pieces of `split` gives back the text. */
  lemma {:induction false} SplitJoin(s: string, c: char)
    ensures Join(Split(s, c), c) == s
    decreases |s|
  {
    var found, pre, post := Occurrence(s, c);
    if !found {
      SplitNone(s, c);
    } else {
      SplitStep(pre, c, post);
      JoinCons(pre, Split(post, c), c);
      SplitJoin(post, c);
    }
  }

  /** `split` undoes `Join` on a non-empty list of separator-free pieces. */
  lemma {:induction false} SplitOfJoin(parts: seq<string>, c: char)
    requires |parts| >= 1
    requires forall k :: 0 <= k < |parts| ==> Excludes(parts[k], c)
    ensures Split(Join(parts, c), c) == parts
    decreases |parts|
  {
    if |parts| == 1 {
      SplitNone(parts[0], c);
    } else {
      var first, rest := parts[0], parts[1..];
      assert parts == [first] + rest;
      JoinCons(first, rest, c);
      SplitStep(first, c, Join(rest, c));
      SplitOfJoin(rest, c);
    }
  }

  predicate EndsWithCR(s: string)
  {
    |s| > 0 && s[|s| - 1] == '\r'
  }

  /** Drops the `'\r'` of a `"\r\n"` line ending. */
  function StripCR(line: string): string
  {
    if EndsWithCR(line) then line[..|line| - 1] else line
  }

  lemma StripCRExcludes(line: string, c: char)
    requires Excludes(line, c)
    ensures Excludes(StripCR(line), c)
  {
  }

  /**
   * `s.lines()`: the text split at `'\n'`; a line that was ended by `"\r\n"`
   * loses its `'\r'`; a final line ending adds no empty line, and `""` has no
   * lines at all.
   */
  function Lines(s: string): seq<string>
    decreases |s|
  {
    if s == [] then []
    else
      var i := IndexOf(s, '\n');
      if i == |s| then [s]
      else [StripCR(s[..i])] + Lines(s[i + 1..])
  }

  /** Text without a line break is one line, kept whole: a `'\r'` not followed by `'\n'` stays. */
  lemma LinesOfSingleLine(s: string)
    requires |s| > 0 && Excludes(s, '\n')
    ensures Lines(s) == [s]
  {
    IndexOfAbsent(s, '\n');
  }

  /** Lines of a text whose first line break is right after `line`. */
  lemma LinesCons(line: string, rest: string)
    requires Excludes(line, '\n')
    ensures Lines(line + "\n" + rest) == [StripCR(line)] + Lines(rest)
  {
    FirstOccurrence(line, '\n', rest);
  }

  /** The same, with more text after the rest. */
  lemma LinesConsAppend(line: string, rest: string, more: string)
    requires Excludes(line, '\n')
    ensures Lines(line + "\n" + rest + more) == [StripCR(line)] + Lines(rest + more)
  {
    assert line + "\n" + rest + more == line + "\n" + (rest + more);
    LinesCons(line, rest + more);
  }

  /** No line of `lines` holds a line break. */
  lemma {:induction false} LinesPieces(s: string)
    ensures forall k :: 0 <= k < |Lines(s)| ==> Excludes(Lines(s)[k], '\n')
    decreases |s|
  {
    if s != [] {
      var found, pre, post := Occurrence(s, '\n');
      if !found {
        LinesOfSingleLine(s);
      } else {
        LinesCons(pre, post);
        StripCRExcludes(pre, '\n');
        LinesPieces(post);
        var rest := Lines(post);
        var r := [StripCR(pre)] + rest;
        forall k | 0 <= k < |r| ensures Excludes(r[k], '\n') {
          if k == 0 {
            assert r[k] == StripCR(pre);
          } else {
            assert r[k] == rest[k - 1];
            assert Excludes(rest[k - 1], '\n');
          }
        }
      }
    }
  }

  /** There are never more lines than characters. */
  lemma {:induction false} LinesLength(s: string)
    ensures |Lines(s)| <= |s|
    decreases |s|
  {
    if s != [] {
      var found, pre, post := Occurrence(s, '\n');
      if !found {
        LinesOfSingleLine(s);
      } else {
        LinesCons(pre, post);
        LinesLength(post);
      }
    }
  }

  /** A text holding `lines` each followed by `ending`. */
  function Terminated(lines: seq<string>, ending: string): string
  {
    if lines == [] then ""
    else lines[0] + ending + Terminated(lines[1..], ending)
  }

  /** `lines` undoes writing `'\n'`-terminated lines that do not end in `'\r'`. */
  lemma {:induction false} LinesOfTerminated(lines: seq<string>)
    requires forall k :: 0 <= k < |lines| ==> Excludes(lines[k], '\n') && !EndsWithCR(lines[k])
    ensures Lines(Terminated(lines, "\n")) == lines
  {
    if lines != [] {
      LinesCons(lines[0], Terminated(lines[1..], "\n"));
      assert lines[0] + "\n" + Terminated(lines[1..], "\n") == Terminated(lines, "\n");
      LinesOfTerminated(lines[1..]);
    }
  }

  /** `lines` undoes writing `"\r\n"`-terminated lines, whatever they end in. */
  lemma {:induction false} LinesOfCrlfTerminated(lines: seq<string>)
    requires forall k :: 0 <= k < |lines| ==> Excludes(lines[k], '\n')
    ensures Lines(Terminated(lines, "\r\n")) == lines
  {
    if lines != [] {
      var l := lines[0];
      var rest := Terminated(lines[1..], "\r\n");
      assert l + "\r\n" + rest == (l + "\r") + "\n" + rest;
      assert Excludes(l + "\r", '\n');
      LinesCons(l + "\r", rest);
      assert StripCR(l + "\r") == l;
      LinesOfCrlfTerminated(lines[1..]);
    }
  }

  /** A final newline is optional: it adds no empty line. */
  lemma {:induction false} TrailingNewlineOptional(s: string)
    requires |s| > 0 && s[|s| - 1] != '\n' && s[|s| - 1] != '\r'
    ensures Lines(s + "\n") == Lines(s)
    decreases |s|
  {
    var found, pre, post := Occurrence(s, '\n');
    if !found {
      LinesCons(s, "");
      assert s + "\n" + "" == s + "\n";
      LinesOfSingleLine(s);
    } else {
      assert post[|post| - 1] == s[|s| - 1];
      LinesCons(pre, post);
      LinesConsAppend(pre, post, "\n");
      TrailingNewlineOptional(post);
    }
  }

  /**
   * Lines of two texts end to end, when the first is empty or ends in a line
   * break: the lines of the first, then those of the second.
   */
  lemma {:induction false} LinesAppend(a: string, b: string)
    requires a == [] || a[|a| - 1] == '\n'
    ensures Lines(a + b) == Lines(a) + Lines(b)
    decreases |a|, 1
  {
    if a == [] {
      assert a + b == b;
    } else {
      var line, rest := FirstLine(a);
      LinesAppendCons(line, rest, b);
    }
  }

  lemma {:induction false} LinesAppendCons(line: string, rest: string, b: string)
    requires Excludes(line, '\n')
    requires rest == [] || rest[|rest| - 1] == '\n'
    ensures Lines(line + "\n" + rest + b) == Lines(line + "\n" + rest) + Lines(b)
    decreases |rest| + 1, 0
  {
    var first := [StripCR(line)];
    calc {
      Lines(line + "\n" + rest + b);
      { LinesConsAppend(line, rest, b); }
      first + Lines(rest + b);
      { LinesAppend(rest, b); }
      first + (Lines(rest) + Lines(b));
      (first + Lines(rest)) + Lines(b);
      { LinesCons(line, rest); }
      Lines(line + "\n" + rest) + Lines(b);
    }
  }

  /** A text ending in a line break is its first line, that break, and the rest. */
  lemma FirstLine(a: string) returns (line: string, rest: string)
    requires a != [] && a[|a| - 1] == '\n'
    ensures a == line + "\n" + rest && Excludes(line, '\n')
    ensures rest == [] || rest[|rest| - 1] == '\n'
  {
    var i := IndexOf(a, '\n');
    IndexOfBefore(a, '\n');
    IndexOfAtMost(a, '\n', |a| - 1);
    line, rest := a[..i], a[i + 1..];
    assert a == line + "\n" + rest;
    assert rest == [] || rest[|rest| - 1] == a[|a| - 1];
  }
}
