/** The Python string operations the modelled code relies on: `sub in s` and `s.lower()`. */
module Text {

  /** `sub` occurs in `s` starting at index `i`. */
  ghost predicate OccursAt(s: string, sub: string, i: int) {
    0 <= i && i + |sub| <= |s| && s[i..i + |sub|] == sub
  }

  /** The meaning of Python's `sub in s`: some contiguous slice of `s` equals `sub`. */
  ghost predicate Occurs(s: string, sub: string) {
    exists i :: OccursAt(s, sub, i)
  }

  predicate StartsWith(s: string, prefix: string) {
    |prefix| <= |s| && s[..|prefix|] == prefix
  }

  /** Executable substring test: try every start position from the left. */
  function Contains(s: string, sub: string): bool
    decreases |s|
  {
    StartsWith(s, sub) || (|s| > 0 && Contains(s[1..], sub))
  }

  /** The scan finds an occurrence exactly when one exists. */
  lemma {:induction false} ContainsIffOccurs(s: string, sub: string)
    ensures Contains(s, sub) <==> Occurs(s, sub)
    decreases |s|
  {
    if StartsWith(s, sub) {
      assert OccursAt(s, sub, 0);
    } else if |s| > 0 {
      ContainsIffOccurs(s[1..], sub);
      if Contains(s[1..], sub) {
        var i :| OccursAt(s[1..], sub, i);
        SliceOfTail(s, i, |sub|);
        assert OccursAt(s, sub, i + 1);
      }
      if Occurs(s, sub) {
        var i :| OccursAt(s, sub, i);
        assert i != 0;
        SliceOfTail(s, i - 1, |sub|);
        assert OccursAt(s[1..], sub, i - 1);
      }
    }
  }

  /** A slice of the tail is the slice one position further in the whole. */
  lemma SliceOfTail(s: string, i: nat, n: nat)
    requires 1 + i + n <= |s|
    ensures s[1..][i..i + n] == s[i + 1..i + 1 + n]
  {
    var x, y := s[1..][i..i + n], s[i + 1..i + 1 + n];
    forall k | 0 <= k < n
      ensures x[k] == y[k]
    {
    }
  }

  /** A string placed between two others is found in the concatenation. */
  lemma ContainsSurrounded(a: string, b: string, c: string)
    ensures Contains(a + b + c, b)
  {
    assert (a + b + c)[|a|..|a| + |b|] == b;
    assert OccursAt(a + b + c, b, |a|);
    ContainsIffOccurs(a + b + c, b);
  }

  predicate IsAsciiUpper(c: char) {
    'A' <= c <= 'Z'
  }

  predicate IsAsciiLetter(c: char) {
    IsAsciiUpper(c) || 'a' <= c <= 'z'
  }

  /** Lower-cases the ASCII letters and keeps every other character. */
  function LowerChar(c: char): char {
    if IsAsciiUpper(c) then (c as int + 32) as char else c
  }

  /** `s.lower()`, restricted to ASCII case folding. */
  function Lower(s: string): string {
    seq(|s|, i requires 0 <= i < |s| => LowerChar(s[i]))
  }

  /** No character of `t` has an ASCII case. */
  predicate Caseless(t: string) {
    forall i :: 0 <= i < |t| ==> !IsAsciiLetter(t[i])
  }

  /** Comparing `s.lower()` against a caseless literal is comparing `s` itself:
      only `t` lower-cases to `t`. */
  lemma LowerEqualsCaseless(s: string, t: string)
    requires Caseless(t)
    ensures Lower(s) == t <==> s == t
  {
    if Lower(s) == t {
      forall i | 0 <= i < |s|
        ensures s[i] == t[i]
      {
        assert LowerChar(s[i]) == t[i] && !IsAsciiLetter(t[i]);
      }
    }
    if s == t {
      forall i | 0 <= i < |s|
        ensures Lower(s)[i] == t[i]
      {
        assert !IsAsciiUpper(t[i]);
      }
    }
  }

  /** Lower-casing keeps occurrences: if `sub` occurs in `s`, then `sub.lower()` occurs in
      `s.lower()`, so a case-insensitive test finds every spelling. */
  lemma LowerKeepsOccurrence(s: string, sub: string)
    requires Contains(s, sub)
    ensures Contains(Lower(s), Lower(sub))
  {
    ContainsIffOccurs(s, sub);
    var i :| OccursAt(s, sub, i);
    assert Lower(s)[i..i + |sub|] == Lower(sub) by {
      forall k | 0 <= k < |sub|
        ensures Lower(s)[i..i + |sub|][k] == Lower(sub)[k]
      {
        assert s[i + k] == sub[k];
      }
    }
    assert OccursAt(Lower(s), Lower(sub), i);
    ContainsIffOccurs(Lower(s), Lower(sub));
  }

  /** An occurrence of `b` inside an occurrence of `a` is an occurrence in the whole text. */
  lemma ContainsTransitive(s: string, a: string, b: string)
    requires Contains(s, a) && Contains(a, b)
    ensures Contains(s, b)
  {
    ContainsIffOccurs(s, a);
    ContainsIffOccurs(a, b);
    var i :| OccursAt(s, a, i);
    var j :| OccursAt(a, b, j);
    var x, y := s[i + j..i + j + |b|], a[j..j + |b|];
    assert x == y by {
      forall k | 0 <= k < |b|
        ensures x[k] == y[k]
      {
        assert s[i..i + |a|][j + k] == a[j + k];
      }
    }
    assert OccursAt(s, b, i + j);
    ContainsIffOccurs(s, b);
  }
}
