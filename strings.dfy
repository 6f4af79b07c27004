/**
 * The handful of Rust `str` operations the resolver relies on: `find` of a
 * one-character pattern, `trim`, `replace`, and substring containment (used to
 * state what a rendered message mentions). Strings are sequences of Unicode
 * scalar values, as Rust `char`s are.
 */
module Strings {
  import opened Wrappers

  /** Rust's `char::is_whitespace`: the code points with the Unicode White_Space property. */
  predicate IsWhitespace(c: char) {
    var n := c as int;
    (0x09 <= n <= 0x0D) || n == 0x20 || n == 0x85 || n == 0xA0 || n == 0x1680
    || (0x2000 <= n <= 0x200A) || n == 0x2028 || n == 0x2029 || n == 0x202F
    || n == 0x205F || n == 0x3000
  }

  predicate AllWhitespace(s: string) {
    forall i :: 0 <= i < |s| ==> IsWhitespace(s[i])
  }

  /** `sub` occurs somewhere inside `s`. */
  ghost predicate IsInfix(sub: string, s: string) {
    exists k :: 0 <= k <= |s| - |sub| && s[k..][..|sub|] == sub
  }

  /** How many whitespace characters `s` starts with. */
  function LeadingWhitespace(s: string): (n: nat)
    ensures n <= |s|
    ensures forall i :: 0 <= i < n ==> IsWhitespace(s[i])
    ensures n < |s| ==> !IsWhitespace(s[n])
  {
    if s == [] || !IsWhitespace(s[0]) then 0 else 1 + LeadingWhitespace(s[1..])
  }

  /** How many whitespace characters `s` ends with. */
  function TrailingWhitespace(s: string): (n: nat)
    ensures n <= |s|
    ensures forall i :: |s| - n <= i < |s| ==> IsWhitespace(s[i])
    ensures n < |s| ==> !IsWhitespace(s[|s| - n - 1])
  {
    if s == [] || !IsWhitespace(s[|s| - 1]) then 0 else 1 + TrailingWhitespace(s[..|s| - 1])
  }

  /** `str::trim`: `s` without its leading and trailing whitespace. */
  function Trim(s: string): (r: string)
    ensures |r| <= |s|
    ensures r == [] || (!IsWhitespace(r[0]) && !IsWhitespace(r[|r| - 1]))
  {
    var t := s[LeadingWhitespace(s)..];
    t[..|t| - TrailingWhitespace(t)]
  }

  /** What `trim` keeps is a run of `s`, and what it removes on either side is whitespace. */
  lemma TrimRemovesWhitespace(s: string)
    ensures var k, r := LeadingWhitespace(s), Trim(s);
      && k + |r| <= |s|
      && (forall i :: 0 <= i < |r| ==> r[i] == s[k + i])
      && (forall i :: 0 <= i < k ==> IsWhitespace(s[i]))
      && (forall i :: k + |r| <= i < |s| ==> IsWhitespace(s[i]))
  {
    var k := LeadingWhitespace(s);
    var t := s[k..];
    var b := TrailingWhitespace(t);
    var r := t[..|t| - b];
    assert Trim(s) == r;
    forall i | 0 <= i < |r|
      ensures r[i] == s[k + i]
    {
    }
    forall i | k + |r| <= i < |s|
      ensures IsWhitespace(s[i])
    {
      assert s[i] == t[i - k];
    }
  }

  /** A whitespace prefix followed by something else is exactly what `trim` skips at the start. */
  lemma LeadingPadded(pre: string, rest: string)
    requires AllWhitespace(pre) && (rest == [] || !IsWhitespace(rest[0]))
    ensures LeadingWhitespace(pre + rest) == |pre|
  {
    var s := pre + rest;
    assert forall i :: 0 <= i < |pre| ==> s[i] == pre[i];
    if rest != [] {
      assert s[|pre|] == rest[0];
    }
  }

  /** A whitespace suffix preceded by something else is exactly what `trim` drops at the end. */
  lemma TrailingPadded(rest: string, post: string)
    requires AllWhitespace(post) && (rest == [] || !IsWhitespace(rest[|rest| - 1]))
    ensures TrailingWhitespace(rest + post) == |post|
  {
    var s := rest + post;
    assert forall i :: |rest| <= i < |s| ==> s[i] == post[i - |rest|];
    if rest != [] {
      assert s[|rest| - 1] == rest[|rest| - 1];
    }
  }

  /** Whitespace padding around a core that starts and ends with something else is what `trim` removes. */
  lemma {:induction false} TrimPadded(pre: string, core: string, post: string)
    requires AllWhitespace(pre) && AllWhitespace(post)
    requires core != [] && !IsWhitespace(core[0]) && !IsWhitespace(core[|core| - 1])
    ensures Trim(pre + core + post) == core
  {
    var s := pre + core + post;
    assert s == pre + (core + post);
    LeadingPadded(pre, core + post);
    var t := s[|pre|..];
    assert t == core + post;
    TrailingPadded(core, post);
    assert t[..|t| - |post|] == core;
  }

  /** Leading whitespace alone is what `trim` removes from a trimmed core. */
  lemma {:induction false} TrimLeftPadded(pre: string, core: string)
    requires AllWhitespace(pre)
    requires core != [] && !IsWhitespace(core[0]) && !IsWhitespace(core[|core| - 1])
    ensures Trim(pre + core) == core
  {
    TrimPadded(pre, core, []);
    assert pre + core + [] == pre + core;
  }

  /** Trailing whitespace alone is what `trim` removes from a trimmed core. */
  lemma {:induction false} TrimRightPadded(core: string, post: string)
    requires AllWhitespace(post)
    requires core != [] && !IsWhitespace(core[0]) && !IsWhitespace(core[|core| - 1])
    ensures Trim(core + post) == core
  {
    TrimPadded([], core, post);
    assert [] + core + post == core + post;
  }

  /** A string that neither starts nor ends with whitespace is its own trim. */
  lemma TrimIdentity(s: string)
    requires s == [] || (!IsWhitespace(s[0]) && !IsWhitespace(s[|s| - 1]))
    ensures Trim(s) == s
  {
    if s != [] {
      assert LeadingWhitespace(s) == 0;
      assert TrailingWhitespace(s) == 0;
    }
  }

  /** Trimming twice is trimming once. */
  lemma {:induction false} TrimIdempotent(s: string)
    ensures Trim(Trim(s)) == Trim(s)
  {
    var t := Trim(s);
    TrimIdentity(t);
  }

  /**
   * `str::find` with a one-character pattern: the index of the first
   * occurrence of `c`, if any.
   */
  function FindChar(s: string, c: char): (r: Option<nat>)
    ensures r.None? <==> c !in s
    ensures r.Some? ==> r.value < |s| && s[r.value] == c && c !in s[..r.value]
  {
    if s == [] then None
    else if s[0] == c then Some(0)
    else
      match FindChar(s[1..], c)
      case None => None
      case Some(i) =>
        assert s[..i + 1] == [s[0]] + s[1..][..i];
        Some(i + 1)
  }

  /** The first occurrence of `c` is the one after a prefix free of it. */
  lemma {:induction false} FindCharAfter(pre: string, c: char, post: string)
    requires c !in pre
    ensures FindChar(pre + [c] + post, c) == Some(|pre|)
  {
    var s := pre + [c] + post;
    if pre != [] {
      assert s[0] == pre[0] && pre[0] in pre;
      assert s[1..] == pre[1..] + [c] + post;
      assert c !in pre[1..];
      FindCharAfter(pre[1..], c, post);
    }
  }

  /**
   * `str::replace`: every non-overlapping occurrence of `from`, scanned left
   * to right, is replaced by `to`.
   */
  function Replace(s: string, from: string, to: string): (r: string)
    requires from != []
    decreases |s|
  {
    if |s| < |from| then s
    else if s[..|from|] == from then to + Replace(s[|from|..], from, to)
    else [s[0]] + Replace(s[1..], from, to)
  }

  /**
   * A template holding exactly one occurrence of `from`, with the first
   * character of `from` nowhere else, has that one occurrence replaced.
   */
  lemma {:induction false} ReplaceSingle(pre: string, from: string, post: string, to: string)
    requires from != [] && from[0] !in pre && from[0] !in post
    ensures Replace(pre + from + post, from, to) == pre + to + post
  {
    var s := pre + from + post;
    if pre == [] {
      assert s == from + post;
      ReplaceAtMatch(from, post, to);
      ReplaceAbsent(post, from, to);
    } else {
      assert pre[0] in pre;
      assert s == [pre[0]] + (pre[1..] + from + post);
      ReplaceAtMiss(pre[0], pre[1..] + from + post, from, to);
      ReplaceSingle(pre[1..], from, post, to);
      assert [pre[0]] + (pre[1..] + to + post) == pre + to + post;
    }
  }

  /** A string without the first character of `from` is left as it is. */
  lemma {:induction false} ReplaceAbsent(s: string, from: string, to: string)
    requires from != [] && from[0] !in s
    ensures Replace(s, from, to) == s
    decreases |s|
  {
    if |s| >= |from| {
      assert s[0] in s;
      ReplaceAtMiss(s[0], s[1..], from, to);
      assert from[0] !in s[1..];
      ReplaceAbsent(s[1..], from, to);
      assert [s[0]] + s[1..] == s;
    }
  }

  /** An occurrence at the front is replaced and the scan resumes after it. */
  lemma ReplaceAtMatch(from: string, rest: string, to: string)
    requires from != []
    ensures Replace(from + rest, from, to) == to + Replace(rest, from, to)
  {
    assert (from + rest)[..|from|] == from && (from + rest)[|from|..] == rest;
  }

  /** A front character that cannot start an occurrence is kept and the scan moves one on. */
  lemma ReplaceAtMiss(c: char, rest: string, from: string, to: string)
    requires from != [] && c != from[0] && |from| <= |rest| + 1
    ensures Replace([c] + rest, from, to) == [c] + Replace(rest, from, to)
  {
    var s := [c] + rest;
    assert s[..|from|][0] == c;
    assert s[1..] == rest;
  }

  /** What precedes and follows `x` in a concatenation does not hide it. */
  lemma InfixOfConcat(pre: string, x: string, post: string)
    ensures IsInfix(x, pre + x + post)
  {
    var s := pre + x + post;
    assert s[|pre|..][..|x|] == x;
  }

  /** A string occurring inside an infix of `s` occurs inside `s`. */
  lemma InfixTransitive(a: string, b: string, c: string)
    requires IsInfix(a, b) && IsInfix(b, c)
    ensures IsInfix(a, c)
  {
    var i :| 0 <= i <= |b| - |a| && b[i..][..|a|] == a;
    var j :| 0 <= j <= |c| - |b| && c[j..][..|b|] == b;
    forall k | 0 <= k < |a|
      ensures c[j + i..][..|a|][k] == a[k]
    {
      assert c[j + i..][..|a|][k] == c[j + i + k];
      assert c[j + i + k] == b[i + k];
      assert b[i + k] == b[i..][..|a|][k];
    }
    assert c[j + i..][..|a|] == a;
  }

  /** `sub` occurs in `s` either at its start or somewhere in its tail. */
  lemma InfixStep(s: string, sub: string)
    requires |sub| <= |s|
    ensures IsInfix(sub, s) <==> (s[..|sub|] == sub || IsInfix(sub, s[1..]))
  {
    if s[..|sub|] == sub {
      assert s[0..][..|sub|] == sub;
    } else if IsInfix(sub, s[1..]) {
      var k :| 0 <= k <= |s| - 1 - |sub| && s[1..][k..][..|sub|] == sub;
      assert s[1..][k..] == s[k + 1..];
    }
    if IsInfix(sub, s) {
      var k :| 0 <= k <= |s| - |sub| && s[k..][..|sub|] == sub;
      if k == 0 {
        assert s[0..] == s;
      } else {
        assert s[1..][k - 1..] == s[k..];
      }
    }
  }

  /** `str::find` of a multi-character pattern, reduced to whether it finds anything. */
  function Contains(s: string, sub: string): (b: bool)
    ensures b <==> IsInfix(sub, s)
    decreases |s|
  {
    if |s| < |sub| then false
    else
      InfixStep(s, sub);
      s[..|sub|] == sub || Contains(s[1..], sub)
  }
}
