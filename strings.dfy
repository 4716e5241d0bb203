/** The JavaScript string operations the failover code relies on:
    `indexOf(x) !== -1` (substring test), `split(c)[0]` and `split(c)`. */
module Strings {

  predicate IsPrefix(p: string, s: string) {
    |p| <= |s| && s[..|p|] == p
  }

  /** `hay.indexOf(needle) !== -1`: `needle` occurs somewhere in `hay`
      (the empty string occurs everywhere). */
  predicate Contains(hay: string, needle: string)
    decreases |hay|
  {
    IsPrefix(needle, hay) || (|hay| > 0 && Contains(hay[1..], needle))
  }

  /** Every string occurs in itself, so a name always matches itself. */
  lemma ContainsSelf(s: string)
    ensures Contains(s, s)
  {
    assert IsPrefix(s, s);
  }

  /** `s.split(c)[0]`: the longest prefix of `s` without `c`. */
  function BeforeFirst(s: string, c: char): (r: string)
    ensures IsPrefix(r, s)
    ensures c !in r
    ensures |r| < |s| ==> s[|r|] == c
  {
    if s == [] then []
    else if s[0] == c then []
    else [s[0]] + BeforeFirst(s[1..], c)
  }

  /** Cutting at a character that is not there leaves the string unchanged. */
  lemma {:induction false} BeforeFirstAbsent(s: string, c: char)
    requires c !in s
    ensures BeforeFirst(s, c) == s
  {
    if s != [] {
      assert s[0] in s;
      assert forall x :: x in s[1..] ==> x in s;
      BeforeFirstAbsent(s[1..], c);
    }
  }

  /** `s.split(sep)` for a one-character separator: at least one piece, none
      holding the separator. */
  function Split(s: string, sep: char): (parts: seq<string>)
    ensures |parts| >= 1
    ensures forall k :: 0 <= k < |parts| ==> sep !in parts[k]
    decreases |s|
  {
    var head := BeforeFirst(s, sep);
    if |head| == |s| then [s]
    else [head] + Split(s[|head| + 1..], sep)
  }

  /** `parts.join(sep)`, the inverse of `Split`. */
  function Join(parts: seq<string>, sep: char): string
  {
    if parts == [] then ""
    else if |parts| == 1 then parts[0]
    else parts[0] + [sep] + Join(parts[1..], sep)
  }

  /** Splitting and joining again gives back the original string. */
  lemma {:induction false} JoinSplit(s: string, sep: char)
    ensures Join(Split(s, sep), sep) == s
    decreases |s|
  {
    var head := BeforeFirst(s, sep);
    if |head| == |s| {
      assert s[..|head|] == head;
    } else {
      var rest := s[|head| + 1..];
      JoinSplit(rest, sep);
      assert Join(Split(s, sep), sep) == head + [sep] + Join(Split(rest, sep), sep);
      CutAt(s, |head|);
    }
  }

  lemma CutAt(s: string, i: nat)
    requires i < |s|
    ensures s == s[..i] + [s[i]] + s[i + 1..]
  {
  }

  /** Joining separator-free pieces and splitting again gives back the pieces. */
  lemma {:induction false} SplitJoin(parts: seq<string>, sep: char)
    requires |parts| >= 1
    requires forall k :: 0 <= k < |parts| ==> sep !in parts[k]
    ensures Split(Join(parts, sep), sep) == parts
    decreases |parts|
  {
    var s := Join(parts, sep);
    if |parts| == 1 {
      BeforeFirstAbsent(parts[0], sep);
    } else {
      var first := parts[0];
      var tail := parts[1..];
      var rest := Join(tail, sep);
      assert s == first + [sep] + rest;
      DropThrough(first, sep, rest);
      BeforeFirstPrefix(first, [sep] + rest, sep);
      var head := BeforeFirst(s, sep);
      assert head == first && s[|head| + 1..] == rest;
      assert forall k :: 0 <= k < |tail| ==> tail[k] == parts[k + 1];
      SplitJoin(tail, sep);
      assert Split(s, sep) == [first] + tail;
      assert parts == [first] + tail;
    }
  }

  lemma DropThrough(a: string, c: char, r: string)
    ensures a + [c] + r == a + ([c] + r)
    ensures (a + [c] + r)[|a| + 1..] == r
  {
  }

  /** Cutting `a + b` stops inside `b` when `a` is free of the separator and
      `b` starts with it. */
  lemma {:induction false} BeforeFirstPrefix(a: string, b: string, c: char)
    requires c !in a
    requires |b| > 0 && b[0] == c
    ensures BeforeFirst(a + b, c) == a
    decreases |a|
  {
    if a == [] {
      assert a + b == b;
    } else {
      assert (a + b)[1..] == a[1..] + b;
      BeforeFirstPrefix(a[1..], b, c);
    }
  }
}
