/**
 * The few operations on Python `str` values that the skill relies on:
 * ordering (`<=` on str), `startswith`, the `in` substring test and `lower()`.
 * Strings are sequences of Unicode scalar values, so comparing two `char`s
 * compares their code points, as Python does.
 */
module Strings {

  /** `s.startswith(prefix)`. */
  predicate StartsWith(s: string, prefix: string) {
    |prefix| <= |s| && s[..|prefix|] == prefix
  }

  /**
   * Python's `a <= b` on str: compare code point by code point; at the first
   * difference the smaller code point is the smaller string, and a proper
   * prefix is smaller than the string it begins.
   */
  predicate LexLe(a: string, b: string)
    ensures StartsWith(b, a) ==> LexLe(a, b)
    decreases |a|
  {
    |a| == 0 || (|b| > 0 && (a[0] < b[0] || (a[0] == b[0] && LexLe(a[1..], b[1..]))))
  }

  /** Python's `a < b` on str. */
  predicate LexLess(a: string, b: string) {
    LexLe(a, b) && a != b
  }

  /** `a` and `b` agree before index `i` and `a` has the smaller code point at `i`. */
  ghost predicate FirstDifferenceAt(a: string, b: string, i: int) {
    0 <= i < |a| && i < |b| && a[..i] == b[..i] && a[i] < b[i]
  }

  /** The textbook definition of the order: `a` begins `b`, or the first difference favours `b`. */
  ghost predicate FirstDifferenceLe(a: string, b: string) {
    StartsWith(b, a) || exists i :: FirstDifferenceAt(a, b, i)
  }

  /** Dropping a common first character shifts both halves of `FirstDifferenceLe` by one. */
  lemma CommonHead(a: string, b: string, i: int)
    requires |a| > 0 && |b| > 0 && a[0] == b[0]
    ensures StartsWith(b[1..], a[1..]) <==> StartsWith(b, a)
    ensures FirstDifferenceAt(a[1..], b[1..], i) <==> FirstDifferenceAt(a, b, i + 1)
  {
    assert a == [a[0]] + a[1..] && b == [b[0]] + b[1..];
    if |a| <= |b| {
      assert b[..|a|] == [b[0]] + b[1..][..|a| - 1];
    }
    if 0 <= i < |a| - 1 && i < |b| - 1 {
      assert a[..i + 1] == [a[0]] + a[1..][..i];
      assert b[..i + 1] == [b[0]] + b[1..][..i];
    }
  }

  lemma {:induction false} LexLeMeansFirstDifference(a: string, b: string)
    ensures LexLe(a, b) <==> FirstDifferenceLe(a, b)
    decreases |a|
  {
    if |a| == 0 {
      assert StartsWith(b, a);
    } else if |b| == 0 {
      assert forall i :: !FirstDifferenceAt(a, b, i);
    } else if a[0] < b[0] {
      assert FirstDifferenceAt(a, b, 0);
    } else if a[0] > b[0] {
      assert !StartsWith(b, a) by { if |a| <= |b| { assert b[..|a|][0] == b[0]; } }
      assert forall i :: !FirstDifferenceAt(a, b, i);
    } else {
      LexLeMeansFirstDifference(a[1..], b[1..]);
      CommonHead(a, b, 0);
      if exists i :: FirstDifferenceAt(a[1..], b[1..], i) {
        var i :| FirstDifferenceAt(a[1..], b[1..], i);
        CommonHead(a, b, i);
      }
      if exists i :: FirstDifferenceAt(a, b, i) {
        var i :| FirstDifferenceAt(a, b, i);
        assert i > 0;
        CommonHead(a, b, i - 1);
      }
    }
  }

  lemma {:induction false} LexLeReflexive(a: string)
    ensures LexLe(a, a)
    decreases |a|
  {
    if |a| > 0 {
      LexLeReflexive(a[1..]);
    }
  }

  lemma {:induction false} LexLeTotal(a: string, b: string)
    ensures LexLe(a, b) || LexLe(b, a)
    decreases |a|
  {
    if |a| > 0 && |b| > 0 && a[0] == b[0] {
      LexLeTotal(a[1..], b[1..]);
    }
  }

  lemma {:induction false} LexLeAntisymmetric(a: string, b: string)
    requires LexLe(a, b) && LexLe(b, a)
    ensures a == b
    decreases |a|
  {
    if |a| > 0 {
      LexLeAntisymmetric(a[1..], b[1..]);
      assert a == [a[0]] + a[1..] && b == [b[0]] + b[1..];
    }
  }

  lemma {:induction false} LexLeTransitive(a: string, b: string, c: string)
    requires LexLe(a, b) && LexLe(b, c)
    ensures LexLe(a, c)
    decreases |a|
  {
    if |a| > 0 && a[0] == b[0] && b[0] == c[0] {
      LexLeTransitive(a[1..], b[1..], c[1..]);
    }
  }

  /** Python's `t in s` on two strings: `t` occurs somewhere in `s`. */
  predicate Contains(s: string, t: string)
    ensures Contains(s, t) ==> |t| <= |s|
    decreases |s|
  {
    StartsWith(s, t) || (|s| > 0 && Contains(s[1..], t))
  }

  /** `t` occurs in `s` starting at index `i`. */
  ghost predicate OccursAt(s: string, t: string, i: int) {
    0 <= i && i + |t| <= |s| && s[i..i + |t|] == t
  }

  /** `Contains` agrees with "some slice of `s` equals `t`". */
  lemma {:induction false} ContainsMeansSlice(s: string, t: string)
    ensures Contains(s, t) <==> exists i :: OccursAt(s, t, i)
    decreases |s|
  {
    if StartsWith(s, t) {
      assert OccursAt(s, t, 0);
    } else if |s| == 0 {
      assert |t| > 0;
    } else {
      ContainsMeansSlice(s[1..], t);
      if exists i :: OccursAt(s[1..], t, i) {
        var i :| OccursAt(s[1..], t, i);
        assert s[1..][i..i + |t|] == s[i + 1..i + 1 + |t|];
        assert OccursAt(s, t, i + 1);
      }
      if exists i :: OccursAt(s, t, i) {
        var i :| OccursAt(s, t, i);
        assert i != 0;
        assert s[1..][i - 1..i - 1 + |t|] == s[i..i + |t|];
        assert OccursAt(s[1..], t, i - 1);
      }
    }
  }

  /** One character of `lower()`, restricted to ASCII: `A`..`Z` become `a`..`z`. */
  function LowerAscii(c: char): char {
    if 'A' <= c <= 'Z' then (c as int + 32) as char else c
  }

  /** `s.lower()` on ASCII letters; every other character is kept. */
  function ToLowerAscii(s: string): (r: string)
    ensures |r| == |s|
    ensures forall i :: 0 <= i < |s| ==> r[i] == LowerAscii(s[i])
    ensures forall i :: 0 <= i < |r| ==> !('A' <= r[i] <= 'Z')
  {
    if s == [] then [] else [LowerAscii(s[0])] + ToLowerAscii(s[1..])
  }

  /** Lowering twice is lowering once. */
  lemma ToLowerAsciiIdempotent(s: string)
    ensures ToLowerAscii(ToLowerAscii(s)) == ToLowerAscii(s)
  {
  }
}
