/** Splitting strings on a separator character with the semantics of Rust's `str::split(char)`:
    every separator ends a segment, empty segments are kept, and a string with `k` separators
    yields `k + 1` segments (the empty string yields one empty segment). */
module Strings {

  /** Number of occurrences of `c` in `s`. */
  function CountOf(s: string, c: char): nat
  {
    if |s| == 0 then 0 else (if s[0] == c then 1 else 0) + CountOf(s[1..], c)
  }

  /** Index of the first occurrence of `c` in `s`. */
  function IndexOf(s: string, c: char): (i: nat)
    requires c in s
    ensures i < |s| && s[i] == c
    ensures c !in s[..i]
  {
    if s[0] == c then 0
    else
      var j := IndexOf(s[1..], c);
      assert s[..j + 1] == [s[0]] + s[1..][..j];
      j + 1
  }

  /** The segments of `s` between occurrences of `sep`, as `s.split(sep).collect::<Vec<_>>()`:
      one more segment than there are separators, none containing the separator, and joined
      back by the separator they give the original string. */
  function Split(s: string, sep: char): (parts: seq<string>)
    ensures |parts| == CountOf(s, sep) + 1
    ensures SegmentsFree(parts, sep)
    ensures Join(parts, sep) == s
    decreases |s|
  {
    if sep !in s then
      CountOfAbsent(s, sep);
      [s]
    else
      var i := IndexOf(s, sep);
      var rest := Split(s[i + 1..], sep);
      CutAtSeparator(s, sep, i);
      assert ([s[..i]] + rest)[1..] == rest;
      [s[..i]] + rest
  }

  /** The segments of `parts` joined by `sep`, as Rust's `[&str]::join`. */
  function Join(parts: seq<string>, sep: char): string
    requires |parts| >= 1
  {
    if |parts| == 1 then parts[0] else parts[0] + [sep] + Join(parts[1..], sep)
  }

  /** No segment produced by `Split` contains the separator. */
  ghost predicate SegmentsFree(parts: seq<string>, sep: char)
  {
    forall k :: 0 <= k < |parts| ==> sep !in parts[k]
  }

  lemma {:induction false} CountOfAppend(a: string, b: string, c: char)
    ensures CountOf(a + b, c) == CountOf(a, c) + CountOf(b, c)
    decreases |a|
  {
    if |a| == 0 {
      assert a + b == b;
    } else {
      assert (a + b)[1..] == a[1..] + b;
      CountOfAppend(a[1..], b, c);
    }
  }

  lemma {:induction false} CountOfAbsent(s: string, c: char)
    ensures c !in s <==> CountOf(s, c) == 0
    decreases |s|
  {
    if |s| > 0 {
      CountOfAbsent(s[1..], c);
      assert s == [s[0]] + s[1..];
    }
  }

  /** The first occurrence of `c` is unique: any index holding `c` with no `c` before it is `IndexOf`. */
  lemma IndexOfUnique(s: string, c: char, i: nat)
    requires i < |s| && s[i] == c && c !in s[..i]
    ensures c in s && IndexOf(s, c) == i
  {
  }

  /** Cutting a string at its first separator: the separator sits between the prefix and the
      suffix, and the suffix holds every other separator. */
  lemma CutAtSeparator(s: string, sep: char, i: nat)
    requires i < |s| && s[i] == sep && sep !in s[..i]
    ensures s == s[..i] + [sep] + s[i + 1..]
    ensures CountOf(s, sep) == 1 + CountOf(s[i + 1..], sep)
  {
    assert s == s[..i] + [sep] + s[i + 1..];
    CountOfAppend(s[..i] + [sep], s[i + 1..], sep);
    CountOfAppend(s[..i], [sep], sep);
    CountOfAbsent(s[..i], sep);
  }

  /** Splitting a join of separator-free segments gives back exactly those segments. */
  lemma {:induction false} SplitJoin(parts: seq<string>, sep: char)
    requires |parts| >= 1
    requires SegmentsFree(parts, sep)
    ensures Split(Join(parts, sep), sep) == parts
    decreases |parts|
  {
    if |parts| == 1 {
      assert sep !in parts[0];
    } else {
      var rest := Join(parts[1..], sep);
      var s := parts[0] + [sep] + rest;
      assert s[..|parts[0]|] == parts[0];
      IndexOfUnique(s, sep, |parts[0]|);
      assert s[|parts[0]| + 1..] == rest;
      assert SegmentsFree(parts[1..], sep) by {
        forall k | 0 <= k < |parts[1..]|
          ensures sep !in parts[1..][k]
        {
          assert parts[1..][k] == parts[k + 1];
        }
      }
      SplitJoin(parts[1..], sep);
    }
  }

  /** The first segment is `w` exactly when the string starts with `w` followed by the separator,
      provided `w` is separator-free and the separator occurs at all. */
  lemma SplitHead(s: string, sep: char, w: string)
    requires sep in s
    requires sep !in w
    ensures Split(s, sep)[0] == w <==> w + [sep] <= s
  {
    var i := IndexOf(s, sep);
    if Split(s, sep)[0] == w {
      assert s[..i + 1] == w + [sep];
    }
    if w + [sep] <= s {
      assert s[..|w|] == w;
      IndexOfUnique(s, sep, |w|);
    }
  }
}
