/**
 * The JavaScript string operations the core relies on: `split` on one
 * separator character, `Array.prototype.join`, `startsWith` and `pop()`.
 */
module Strings {

  predicate StartsWith(s: string, prefix: string) {
    |prefix| <= |s| && s[..|prefix|] == prefix
  }

  /** `parts.join(sep)`; the empty list joins to the empty string. */
  function Join(parts: seq<string>, sep: char): string {
    if |parts| == 0 then ""
    else if |parts| == 1 then parts[0]
    else parts[0] + [sep] + Join(parts[1..], sep)
  }

  /**
   * `s.split(sep)`: the maximal separator-free pieces between separators.
   * Like JavaScript it never returns an empty list (`"".split("/")` is `[""]`).
   */
  function Split(s: string, sep: char): (parts: seq<string>)
    ensures |parts| >= 1
    decreases |s|
  {
    if |s| == 0 then [""]
    else if s[0] == sep then [""] + Split(s[1..], sep)
    else
      var rest := Split(s[1..], sep);
      [[s[0]] + rest[0]] + rest[1..]
  }

  /**
   * What `split` promises: no part contains the separator, joining the parts
   * with it gives the string back, and there are two or more parts exactly
   * when the separator occurs.
   */
  lemma {:induction false} SplitParts(s: string, sep: char)
    ensures forall i :: 0 <= i < |Split(s, sep)| ==> sep !in Split(s, sep)[i]
    ensures Join(Split(s, sep), sep) == s
    ensures |Split(s, sep)| >= 2 <==> sep in s
    decreases |s|
  {
    if |s| > 0 {
      var tail := s[1..];
      assert s == [s[0]] + tail;
      SplitParts(tail, sep);
      var rest := Split(tail, sep);
      if s[0] == sep {
        assert Split(s, sep) == [""] + rest;
        assert ([""] + rest)[1..] == rest;
      } else {
        var parts := [[s[0]] + rest[0]] + rest[1..];
        assert Split(s, sep) == parts;
        forall i | 0 <= i < |parts|
          ensures sep !in parts[i]
        {
          if i > 0 {
            assert parts[i] == rest[i];
          }
        }
        if |rest| >= 2 {
          assert parts[1..] == rest[1..];
          assert Join(parts, sep) == [s[0]] + rest[0] + [sep] + Join(rest[1..], sep);
        }
      }
    }
  }

  /** `a.pop()` on a non-empty array: its last element. */
  function Last(parts: seq<string>): string
    requires |parts| >= 1
  {
    parts[|parts| - 1]
  }

  /** `s.split("/").pop()`: the last `/`-separated segment. */
  function LastSegment(s: string): (seg: string)
    ensures '/' !in seg
  {
    SplitParts(s, '/');
    Last(Split(s, '/'))
  }

  /** A string without the separator splits into itself alone. */
  lemma {:induction false} SplitWithoutSeparator(s: string, sep: char)
    requires sep !in s
    ensures Split(s, sep) == [s]
  {
    SplitParts(s, sep);
  }

  /** Splitting a string that starts with `c`: a separator opens a new empty part, any other character extends the first part. */
  lemma SplitCons(c: char, rest: string, sep: char)
    ensures Split([c] + rest, sep) ==
      if c == sep then [""] + Split(rest, sep)
      else [[c] + Split(rest, sep)[0]] + Split(rest, sep)[1..]
  {
    assert ([c] + rest)[0] == c && ([c] + rest)[1..] == rest;
  }

  /** Appending a separator and a separator-free tail adds exactly one part. */
  lemma {:induction false} SplitAppend(x: string, sep: char, tail: string)
    requires sep !in tail
    ensures Split(x + [sep] + tail, sep) == Split(x, sep) + [tail]
    decreases |x|
  {
    if |x| == 0 {
      assert x + [sep] + tail == [sep] + tail;
      SplitCons(sep, tail, sep);
      SplitWithoutSeparator(tail, sep);
    } else {
      var rest := x[1..] + [sep] + tail;
      assert x + [sep] + tail == [x[0]] + rest;
      assert x == [x[0]] + x[1..];
      SplitCons(x[0], rest, sep);
      SplitCons(x[0], x[1..], sep);
      SplitAppend(x[1..], sep, tail);
      var q := Split(x[1..], sep);
      if x[0] != sep {
        assert (q + [tail])[0] == q[0];
        assert (q + [tail])[1..] == q[1..] + [tail];
      }
    }
  }

  /** Prepending a separator-free head and a separator adds exactly one part in front. */
  lemma {:induction false} SplitPrepend(head: string, sep: char, x: string)
    requires sep !in head
    ensures Split(head + [sep] + x, sep) == [head] + Split(x, sep)
    decreases |head|
  {
    if |head| == 0 {
      assert head + [sep] + x == [sep] + x;
      SplitCons(sep, x, sep);
    } else {
      var rest := head[1..] + [sep] + x;
      assert head + [sep] + x == [head[0]] + rest;
      SplitCons(head[0], rest, sep);
      SplitPrepend(head[1..], sep, x);
      assert [head[0]] + head[1..] == head;
    }
  }

  /** Splitting joined separator-free parts gives the parts back (a non-empty list: `"".split` is `[""]`). */
  lemma {:induction false} SplitJoin(parts: seq<string>, sep: char)
    requires |parts| >= 1
    requires forall i :: 0 <= i < |parts| ==> sep !in parts[i]
    ensures Split(Join(parts, sep), sep) == parts
    decreases |parts|
  {
    if |parts| == 1 {
      SplitWithoutSeparator(parts[0], sep);
    } else {
      SplitJoin(parts[1..], sep);
      SplitPrepend(parts[0], sep, Join(parts[1..], sep));
      assert [parts[0]] + parts[1..] == parts;
    }
  }

  /** The last segment after a final `/` is the separator-free tail. */
  lemma LastSegmentOfAppend(x: string, tail: string)
    requires '/' !in tail
    ensures LastSegment(x + "/" + tail) == tail
  {
    SplitAppend(x, '/', tail);
  }
}
