/** The model-name glob of an API key's allow and deny lists. A string is a
    sequence of bytes; `*` stands for any byte string, every other byte for itself. */
module Glob {

  const STAR := '*'

  /** Declarative meaning of a pattern. */
  ghost predicate Matches(p: string, v: string)
    decreases |p|
  {
    if p == [] then v == []
    else if p[0] == STAR then exists k :: 0 <= k <= |v| && Matches(p[1..], v[k..])
    else v != [] && v[0] == p[0] && Matches(p[1..], v[1..])
  }

  /** The pieces of a pattern between its stars. */
  function Split(p: string): (parts: seq<string>)
    ensures |parts| >= 1
    ensures |parts| == 1 <==> STAR !in p
    ensures |parts| == 1 ==> parts == [p]
  {
    if p == [] then [[]]
    else
      var rest := Split(p[1..]);
      if p[0] == STAR then [[]] + rest
      else
        assert p == [p[0]] + p[1..];
        [[p[0]] + rest[0]] + rest[1..]
  }

  predicate OccursAt(v: string, s: string, k: nat) {
    k + |s| <= |v| && v[k..k + |s|] == s
  }

  predicate HasPrefix(v: string, s: string) { OccursAt(v, s, 0) }

  predicate HasSuffix(v: string, s: string) { |s| <= |v| && OccursAt(v, s, |v| - |s|) }

  /** `v` matches a star followed by `parts`, joined by stars and anchored at the end. */
  ghost predicate Floats(parts: seq<string>, v: string)
    requires |parts| >= 1
    decreases |parts|
  {
    if |parts| == 1 then HasSuffix(v, parts[0])
    else exists k: nat :: OccursAt(v, parts[0], k) && Floats(parts[1..], v[k + |parts[0]|..])
  }

  /** What a split pattern means. */
  ghost predicate MatchesParts(parts: seq<string>, v: string)
    requires |parts| >= 1
  {
    if |parts| == 1 then v == parts[0]
    else HasPrefix(v, parts[0]) && Floats(parts[1..], v[|parts[0]|..])
  }

  lemma StarIsFloats(parts: seq<string>, v: string)
    requires |parts| >= 1
    ensures Floats(parts, v) <==> exists k :: 0 <= k <= |v| && MatchesParts(parts, v[k..])
  {
    if Floats(parts, v) {
      if |parts| == 1 {
        assert MatchesParts(parts, v[|v| - |parts[0]|..]);
      } else {
        var k: nat :| OccursAt(v, parts[0], k) && Floats(parts[1..], v[k + |parts[0]|..]);
        assert v[k..][|parts[0]|..] == v[k + |parts[0]|..];
        assert v[k..][0..|parts[0]|] == v[k..k + |parts[0]|];
        assert MatchesParts(parts, v[k..]);
      }
    }
    if k :| 0 <= k <= |v| && MatchesParts(parts, v[k..]) {
      if |parts| > 1 {
        assert v[k..][|parts[0]|..] == v[k + |parts[0]|..];
        assert v[k..][0..|parts[0]|] == v[k..k + |parts[0]|];
        assert OccursAt(v, parts[0], k);
      }
    }
  }

  lemma LiteralFirst(c: char, rest: seq<string>, v: string)
    requires |rest| >= 1 && v != []
    ensures MatchesParts([[c] + rest[0]] + rest[1..], v) <==> v[0] == c && MatchesParts(rest, v[1..])
  {
    var first := [c] + rest[0];
    var parts := [first] + rest[1..];
    assert parts[1..] == rest[1..];
    assert v == [v[0]] + v[1..];
    if |rest| > 1 && |first| <= |v| {
      assert v[0..|first|] == [v[0]] + v[1..][0..|rest[0]|];
      assert v[|first|..] == v[1..][|rest[0]|..];
    }
  }

  /** Splitting keeps the meaning of a pattern. */
  lemma {:induction false} SplitKeepsMeaning(p: string, v: string)
    ensures Matches(p, v) <==> MatchesParts(Split(p), v)
    decreases |p|
  {
    if p != [] {
      var rest := Split(p[1..]);
      if p[0] == STAR {
        forall k | 0 <= k <= |v|
          ensures Matches(p[1..], v[k..]) <==> MatchesParts(rest, v[k..])
        {
          SplitKeepsMeaning(p[1..], v[k..]);
        }
        StarIsFloats(rest, v);
        assert Split(p)[1..] == rest;
        assert v[0..] == v;
      } else if v != [] {
        SplitKeepsMeaning(p[1..], v[1..]);
        LiteralFirst(p[0], rest, v);
      }
    }
  }

  /** A leading star absorbs anything: a match of a suffix is a match of the whole. */
  lemma {:induction false} FloatsFromSuffix(parts: seq<string>, v: string, j: nat)
    requires |parts| >= 1 && j <= |v| && Floats(parts, v[j..])
    ensures Floats(parts, v)
  {
    if |parts| == 1 {
      var s := parts[0];
      assert v[|v| - |s|..] == v[j..][|v[j..]| - |s|..];
    } else {
      var k: nat :| OccursAt(v[j..], parts[0], k) && Floats(parts[1..], v[j..][k + |parts[0]|..]);
      assert v[j..][k + |parts[0]|..] == v[j + k + |parts[0]|..];
      assert v[j..][k..k + |parts[0]|] == v[j + k..j + k + |parts[0]|];
      assert OccursAt(v, parts[0], j + k);
    }
  }

  /** Greedy placement is complete: the leftmost occurrence of the next piece decides the match. */
  lemma {:induction false} LeftmostSuffices(parts: seq<string>, v: string, at: nat)
    requires |parts| >= 2
    requires OccursAt(v, parts[0], at) && forall k: nat :: k < at ==> !OccursAt(v, parts[0], k)
    ensures Floats(parts, v) <==> Floats(parts[1..], v[at + |parts[0]|..])
  {
    if Floats(parts, v) {
      var k: nat :| OccursAt(v, parts[0], k) && Floats(parts[1..], v[k + |parts[0]|..]);
      var tail := v[at + |parts[0]|..];
      assert v[k + |parts[0]|..] == tail[k - at..];
      FloatsFromSuffix(parts[1..], tail, k - at);
    }
  }

  /** The same while walking: piece `i` is placed leftmost in what is left of the value. */
  lemma PlacePiece(parts: seq<string>, i: nat, v: string, pos: nat, at: nat)
    requires i < |parts| - 1 && pos <= |v|
    requires OccursAt(v[pos..], parts[i], at) && forall k: nat :: k < at ==> !OccursAt(v[pos..], parts[i], k)
    ensures pos + at + |parts[i]| <= |v|
    ensures Floats(parts[i..], v[pos..]) <==> Floats(parts[i + 1..], v[pos + at + |parts[i]|..])
  {
    assert parts[i..][0] == parts[i] && parts[i..][1..] == parts[i + 1..];
    LeftmostSuffices(parts[i..], v[pos..], at);
    assert v[pos..][at + |parts[i]|..] == v[pos + at + |parts[i]|..];
  }

  lemma {:induction false} EveryPatternMatchesItself(p: string)
    ensures Matches(p, p)
    decreases |p|
  {
    if p != [] {
      EveryPatternMatchesItself(p[1..]);
      if p[0] == STAR { assert Matches(p[1..], p[1..]); }
    }
  }

  lemma ShortcutMatches(pattern: string, value: string)
    requires pattern == "*" || pattern == value
    ensures Matches(pattern, value)
  {
    EveryPatternMatchesItself(pattern);
    if pattern == "*" { assert Matches(pattern[1..], value[|value|..]); }
  }

  /** The leftmost occurrence of `s`, or -1. */
  method Index(v: string, s: string) returns (idx: int)
    ensures idx == -1 || (idx >= 0 && OccursAt(v, s, idx))
    ensures idx >= 0 ==> forall k: nat :: k < idx ==> !OccursAt(v, s, k)
    ensures idx == -1 ==> forall k: nat :: !OccursAt(v, s, k)
  {
    idx := 0;
    while idx + |s| <= |v|
      invariant 0 <= idx
      invariant forall k: nat :: k < idx ==> !OccursAt(v, s, k)
    {
      if v[idx..idx + |s|] == s { return; }
      idx := idx + 1;
    }
    idx := -1;
  }

  /** True exactly when the pattern is non-empty and the value matches it. */
  method MatchPattern(pattern: string, value: string) returns (ok: bool)
    ensures ok <==> pattern != "" && Matches(pattern, value)
  {
    if pattern == "" { return false; }
    if pattern == "*" || pattern == value {
      ShortcutMatches(pattern, value);
      return true;
    }
    SplitKeepsMeaning(pattern, value);
    if STAR !in pattern { return false; }
    var parts := Split(pattern);
    var pos := 0;
    if parts[0] != "" {
      if !HasPrefix(value, parts[0]) { return false; }
      pos := |parts[0]|;
    }
    assert HasPrefix(value, parts[0]);
    var i := 1;
    while i < |parts| - 1
      invariant 1 <= i <= |parts| - 1
      invariant 0 <= pos <= |value|
      invariant Matches(pattern, value) <==> Floats(parts[i..], value[pos..])
    {
      var seg := parts[i];
      if seg == "" {
        PlacePiece(parts, i, value, pos, 0);
      } else {
        var idx := Index(value[pos..], seg);
        if idx == -1 { return false; }
        PlacePiece(parts, i, value, pos, idx);
        pos := pos + idx + |seg|;
      }
      i := i + 1;
    }
    var last := parts[|parts| - 1];
    if last != "" {
      if !HasSuffix(value[pos..], last) { return false; }
    }
    return true;
  }
}
