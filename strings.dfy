/**
 * The few .NET string operations the build tool relies on: `string.Join` with a character
 * separator, the splitting that undoes it, `String.Replace(pattern, "")`, `IndexOf` and the
 * ordinal case-insensitive comparison (for ASCII letters).
 */
module Strings {
  import opened Wrappers

  /** `string.Join(separator, parts)`: the parts in order with one separator between neighbours. */
  function Join(separator: char, parts: seq<string>): (r: string)
    ensures |parts| >= 1 ==> parts[0] <= r
  {
    if |parts| == 0 then ""
    else if |parts| == 1 then parts[0]
    else parts[0] + [separator] + Join(separator, parts[1..])
  }

  /** Cuts `s` at every `separator`; the inverse of `Join` (always at least one piece). */
  function Split(separator: char, s: string): (pieces: seq<string>)
    ensures |pieces| >= 1
    ensures forall i :: 0 <= i < |pieces| ==> separator !in pieces[i]
    decreases |s|
  {
    if s == [] then [""]
    else if s[0] == separator then [""] + Split(separator, s[1..])
    else
      var rest := Split(separator, s[1..]);
      [[s[0]] + rest[0]] + rest[1..]
  }

  lemma {:induction false} SplitWithoutSeparator(separator: char, s: string)
    requires separator !in s
    ensures Split(separator, s) == [s]
    decreases |s|
  {
    if s != [] {
      SplitWithoutSeparator(separator, s[1..]);
      assert [s[0]] + s[1..] == s;
    }
  }

  lemma {:induction false} SplitAtFirstSeparator(separator: char, head: string, tail: string)
    requires separator !in head
    ensures Split(separator, head + [separator] + tail) == [head] + Split(separator, tail)
    decreases |head|
  {
    var s := head + [separator] + tail;
    if head == [] {
      assert s[0] == separator && s[1..] == tail;
    } else {
      assert s[0] == head[0];
      assert s[1..] == head[1..] + [separator] + tail;
      SplitAtFirstSeparator(separator, head[1..], tail);
      assert [head[0]] + head[1..] == head;
    }
  }

  /** Splitting a join gives the parts back when no part contains the separator. */
  lemma {:induction false} SplitJoin(separator: char, parts: seq<string>)
    requires |parts| >= 1
    requires forall i :: 0 <= i < |parts| ==> separator !in parts[i]
    ensures Split(separator, Join(separator, parts)) == parts
    decreases |parts|
  {
    if |parts| == 1 {
      SplitWithoutSeparator(separator, parts[0]);
    } else {
      SplitAtFirstSeparator(separator, parts[0], Join(separator, parts[1..]));
      SplitJoin(separator, parts[1..]);
      assert [parts[0]] + parts[1..] == parts;
    }
  }

  /** Joining the pieces of a split gives the string back, whatever it contains. */
  lemma {:induction false} JoinSplit(separator: char, s: string)
    ensures Join(separator, Split(separator, s)) == s
    decreases |s|
  {
    if s != [] {
      JoinSplit(separator, s[1..]);
      var rest := Split(separator, s[1..]);
      if s[0] == separator {
        assert Split(separator, s) == [""] + rest;
        assert ([""] + rest)[1..] == rest;
        assert [s[0]] + s[1..] == s;
      } else {
        var pieces := [[s[0]] + rest[0]] + rest[1..];
        assert Split(separator, s) == pieces;
        if |rest| == 1 {
          assert [s[0]] + s[1..] == s;
        } else {
          assert pieces[1..] == rest[1..];
          assert Join(separator, rest) == rest[0] + [separator] + Join(separator, rest[1..]);
          assert [s[0]] + s[1..] == s;
        }
      }
    }
  }

  lemma JoinCons(separator: char, first: string, rest: seq<string>)
    requires |rest| >= 1
    ensures Join(separator, [first] + rest) == first + [separator] + Join(separator, rest)
  {
    assert ([first] + rest)[1..] == rest;
  }

  /** Joining two non-empty lists is joining each and putting one separator between. */
  lemma {:induction false} JoinAppend(separator: char, front: seq<string>, back: seq<string>)
    requires |front| >= 1 && |back| >= 1
    ensures Join(separator, front + back) == Join(separator, front) + [separator] + Join(separator, back)
    decreases |front|
  {
    var all := front + back;
    if |front| == 1 {
      assert all[0] == front[0] && all[1..] == back;
    } else {
      assert all[0] == front[0] && all[1..] == front[1..] + back;
      JoinAppend(separator, front[1..], back);
    }
  }

  /** A character that is neither the separator nor in any part is not in the join. */
  lemma {:induction false} JoinAvoids(separator: char, parts: seq<string>, c: char)
    requires c != separator
    requires forall i :: 0 <= i < |parts| ==> c !in parts[i]
    ensures c !in Join(separator, parts)
    decreases |parts|
  {
    if |parts| > 1 {
      JoinAvoids(separator, parts[1..], c);
    }
  }

  /** `String.Replace(pattern, "")`: deletes the matches of `pattern` found scanning left to right. */
  function RemoveAll(s: string, pattern: string): (r: string)
    requires pattern != ""
    ensures |r| <= |s|
    ensures pattern[0] !in s ==> r == s
    decreases |s|
  {
    if s == [] then []
    else if pattern <= s then RemoveAll(s[|pattern|..], pattern)
    else [s[0]] + RemoveAll(s[1..], pattern)
  }

  /** A string that lacks one of the pattern's characters holds no match and is returned as it is. */
  lemma {:induction false} RemoveAllUnmatched(s: string, pattern: string, c: char)
    requires pattern != "" && c in pattern && c !in s
    ensures RemoveAll(s, pattern) == s
    decreases |s|
  {
    if s != [] {
      RemoveAllUnmatched(s[1..], pattern, c);
      assert [s[0]] + s[1..] == s;
    }
  }

  /** A string in which the pattern starts nowhere is returned as it is. */
  lemma {:induction false} RemoveAllWithoutMatch(s: string, pattern: string)
    requires pattern != ""
    requires forall i | 0 <= i < |s| :: !(pattern <= s[i..])
    ensures RemoveAll(s, pattern) == s
    decreases |s|
  {
    if s != [] {
      assert s[0..] == s;
      forall i | 0 <= i < |s[1..]| ensures !(pattern <= s[1..][i..]) {
        assert s[1..][i..] == s[i + 1..];
      }
      RemoveAllWithoutMatch(s[1..], pattern);
      assert [s[0]] + s[1..] == s;
    }
  }

  /** A match at the front is dropped and the scan continues right after it. */
  lemma RemoveAllLeading(pattern: string, rest: string)
    requires pattern != ""
    ensures RemoveAll(pattern + rest, pattern) == RemoveAll(rest, pattern)
  {
    assert (pattern + rest)[|pattern|..] == rest;
  }

  /** `s` without any occurrence of `c`, other characters kept in order. */
  function FilterOut(s: string, c: char): (r: string)
    ensures c !in r
    decreases |s|
  {
    if s == [] then []
    else (if s[0] == c then [] else [s[0]]) + FilterOut(s[1..], c)
  }

  /** Number of occurrences of `c` in `s`. */
  function Count(s: string, c: char): nat
    decreases |s|
  {
    if s == [] then 0 else (if s[0] == c then 1 else 0) + Count(s[1..], c)
  }

  /** `a` is `b` with some elements deleted, the rest in their original order. */
  predicate IsSubsequence<T(==)>(a: seq<T>, b: seq<T>)
    decreases |b|
  {
    if a == [] then true
    else if b == [] then false
    else (a[0] == b[0] && IsSubsequence(a[1..], b[1..])) || IsSubsequence(a, b[1..])
  }

  /** Removing a one-character pattern is filtering that character out. */
  lemma {:induction false} RemoveAllSingleCharacter(s: string, c: char)
    ensures RemoveAll(s, [c]) == FilterOut(s, c)
    decreases |s|
  {
    if s != [] {
      RemoveAllSingleCharacter(s[1..], c);
      if s[0] == c {
        assert [c] <= s;
      } else {
        assert !([c] <= s);
      }
    }
  }

  lemma {:induction false} FilterOutLength(s: string, c: char)
    ensures |FilterOut(s, c)| == |s| - Count(s, c)
    decreases |s|
  {
    if s != [] {
      FilterOutLength(s[1..], c);
    }
  }

  /** Every character other than `c` occurs as often after filtering as before. */
  lemma {:induction false} FilterOutKeepsOthers(s: string, c: char, d: char)
    requires d != c
    ensures Count(FilterOut(s, c), d) == Count(s, d)
    decreases |s|
  {
    if s != [] {
      FilterOutKeepsOthers(s[1..], c, d);
      CountAppend((if s[0] == c then [] else [s[0]]), FilterOut(s[1..], c), d);
    }
  }

  lemma {:induction false} CountAppend(a: string, b: string, d: char)
    ensures Count(a + b, d) == Count(a, d) + Count(b, d)
    decreases |a|
  {
    if a == [] {
      assert a + b == b;
    } else {
      assert (a + b)[0] == a[0] && (a + b)[1..] == a[1..] + b;
      CountAppend(a[1..], b, d);
    }
  }

  /** Filtering distributes over concatenation. */
  lemma {:induction false} FilterOutAppend(a: string, b: string, c: char)
    ensures FilterOut(a + b, c) == FilterOut(a, c) + FilterOut(b, c)
    decreases |a|
  {
    if a == [] {
      assert a + b == b;
    } else {
      assert (a + b)[0] == a[0] && (a + b)[1..] == a[1..] + b;
      FilterOutAppend(a[1..], b, c);
    }
  }

  /** The filtered string keeps the original order of what it keeps. */
  lemma {:induction false} FilterOutIsSubsequence(s: string, c: char)
    ensures IsSubsequence(FilterOut(s, c), s)
    decreases |s|
  {
    if s != [] {
      FilterOutIsSubsequence(s[1..], c);
      var rest := FilterOut(s[1..], c);
      if s[0] != c {
        var r := [s[0]] + rest;
        assert FilterOut(s, c) == r;
        assert r[0] == s[0] && r[1..] == rest;
      } else {
        assert FilterOut(s, c) == rest;
      }
    }
  }

  /** A string without `c` is left unchanged by filtering `c` out. */
  lemma {:induction false} FilterOutAbsent(s: string, c: char)
    requires c !in s
    ensures FilterOut(s, c) == s
    decreases |s|
  {
    if s != [] {
      FilterOutAbsent(s[1..], c);
      assert [s[0]] + s[1..] == s;
    }
  }

  /** The first position of `c` in `s`, if any. */
  function IndexOf(s: string, c: char): (r: Option<nat>)
    ensures r.Some? ==> r.value < |s| && s[r.value] == c && c !in s[..r.value]
    ensures r.None? ==> c !in s
    decreases |s|
  {
    if s == [] then None
    else if s[0] == c then Some(0)
    else match IndexOf(s[1..], c)
      case None => None
      case Some(i) => Some(i + 1)
  }

  /** The first `c` of `head + [c] + tail` is the one right after `head` when `head` has none. */
  lemma {:induction false} IndexOfAfter(head: string, c: char, tail: string)
    requires c !in head
    ensures IndexOf(head + [c] + tail, c) == Some(|head|)
    decreases |head|
  {
    var s := head + [c] + tail;
    if head != [] {
      assert s[0] == head[0] && s[1..] == head[1..] + [c] + tail;
      IndexOfAfter(head[1..], c, tail);
    }
  }

  /** The last position of `c` in `s`, if any. */
  function LastIndexOf(s: string, c: char): (r: Option<nat>)
    ensures r.Some? ==> r.value < |s| && s[r.value] == c && c !in s[r.value + 1..]
    ensures r.None? ==> c !in s
    decreases |s|
  {
    if s == [] then None
    else if s[|s| - 1] == c then Some(|s| - 1)
    else LastIndexOf(s[..|s| - 1], c)
  }

  /** The last `c` of `head + [c] + tail` is the one right after `head` when `tail` has none. */
  lemma {:induction false} LastIndexOfBefore(head: string, c: char, tail: string)
    requires c !in tail
    ensures LastIndexOf(head + [c] + tail, c) == Some(|head|)
    decreases |tail|
  {
    var s := head + [c] + tail;
    if tail != [] {
      assert s[|s| - 1] == tail[|tail| - 1];
      assert s[..|s| - 1] == head + [c] + tail[..|tail| - 1];
      LastIndexOfBefore(head, c, tail[..|tail| - 1]);
    }
  }

  /** Upper-casing of one character under ordinal comparison (ASCII letters only). */
  function ToUpper(c: char): char
  {
    if 'a' <= c <= 'z' then (c as int - 32) as char else c
  }

  function ToUpperString(s: string): string
  {
    seq(|s|, i requires 0 <= i < |s| => ToUpper(s[i]))
  }

  /** `StringComparer.OrdinalIgnoreCase.Equals(a, b)`. */
  predicate EqualsIgnoreCase(a: string, b: string)
  {
    ToUpperString(a) == ToUpperString(b)
  }
}
