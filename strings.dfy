/**
  The three pieces of Swift's String API that the hours formatter is built from:
  `replacingOccurrences(of:with:)`, `joined(separator:)` on an array of strings,
  and the deletion of single characters that the multi-interval rule performs
  with `replacingOccurrences(of: "a", with: "")`.
 */
module Strings {

  /** Foundation's `replacingOccurrences(of:with:)`: scans left to right and
      replaces every non-overlapping occurrence of `target`; an empty target
      leaves the text as it is. */
  function ReplaceAll(s: string, target: string, replacement: string): (r: string)
    ensures |replacement| <= |target| ==> |r| <= |s|
    decreases |s|
  {
    if |target| == 0 || |s| < |target| then s
    else if s[..|target|] == target then replacement + ReplaceAll(s[|target|..], target, replacement)
    else [s[0]] + ReplaceAll(s[1..], target, replacement)
  }

  /** Text that holds no character of `cs`. */
  predicate Avoids(s: string, cs: set<char>) {
    forall i :: 0 <= i < |s| ==> s[i] !in cs
  }

  /** `s` with every character of `cs` deleted, the rest kept in order. */
  function Without(s: string, cs: set<char>): (r: string)
    ensures Avoids(r, cs)
    ensures |r| <= |s|
    ensures Avoids(s, cs) ==> r == s
  {
    if s == [] then []
    else
      var rest := Without(s[1..], cs);
      assert s == [s[0]] + s[1..];
      if s[0] in cs then rest else [s[0]] + rest
  }

  /** `joined(separator:)`: the parts in order with `sep` between neighbours. */
  function Join(parts: seq<string>, sep: string): (r: string)
    ensures |parts| > 0 ==> parts[0] <= r
  {
    if |parts| == 0 then ""
    else if |parts| == 1 then parts[0]
    else parts[0] + sep + Join(parts[1..], sep)
  }

  /** `Without` applied to every part. */
  function WithoutEach(parts: seq<string>, cs: set<char>): (r: seq<string>)
    ensures |r| == |parts|
    ensures forall i :: 0 <= i < |parts| ==> r[i] == Without(parts[i], cs)
  {
    if parts == [] then [] else [Without(parts[0], cs)] + WithoutEach(parts[1..], cs)
  }

  /** Replacing text that does not contain the first character of the target
      anywhere copies it unchanged, whatever follows it. */
  lemma {:induction false} ReplaceAllSkips(a: string, b: string, target: string, replacement: string)
    requires |target| > 0 && target[0] !in a
    ensures ReplaceAll(a + b, target, replacement) == a + ReplaceAll(b, target, replacement)
  {
    if a != [] {
      var s := a + b;
      assert s[0] == a[0] != target[0];
      if |s| >= |target| {
        assert s[..|target|] != target by { assert s[..|target|][0] == s[0]; }
        assert s[1..] == a[1..] + b;
        ReplaceAllSkips(a[1..], b, target, replacement);
        assert a == [a[0]] + a[1..];
      } else {
        assert ReplaceAll(b, target, replacement) == b;
      }
    } else {
      assert a + b == b;
    }
  }

  /** A text that replacing leaves unchanged stays unchanged behind a prefix
      without the first character of the target. */
  lemma ReplaceAllKeeps(a: string, b: string, target: string, replacement: string)
    requires |target| > 0 && target[0] !in a
    requires ReplaceAll(b, target, replacement) == b
    ensures ReplaceAll(a + b, target, replacement) == a + b
  {
    ReplaceAllSkips(a, b, target, replacement);
  }

  /** Text without the first character of the target is left unchanged. */
  lemma ReplaceAllAbsent(s: string, target: string, replacement: string)
    requires |target| > 0 && target[0] !in s
    ensures ReplaceAll(s, target, replacement) == s
  {
    ReplaceAllSkips(s, [], target, replacement);
    assert s + [] == s;
  }

  /** A target at the very front is replaced and scanning resumes after it. */
  lemma ReplaceAllFront(b: string, target: string, replacement: string)
    requires |target| > 0
    ensures ReplaceAll(target + b, target, replacement) == replacement + ReplaceAll(b, target, replacement)
  {
    var s := target + b;
    assert s[..|target|] == target;
    assert s[|target|..] == b;
  }

  /** Replacing a one-character target by nothing deletes that character. */
  lemma {:induction false} ReplaceCharByNothing(s: string, c: char)
    ensures ReplaceAll(s, [c], "") == Without(s, {c})
  {
    if s != [] {
      ReplaceCharByNothing(s[1..], c);
      assert s[..1] == [s[0]];
    }
  }

  /** Deleting characters other than `c` keeps every occurrence of `c`. */
  lemma {:induction false} WithoutKeeps(s: string, cs: set<char>, c: char)
    requires c !in cs
    ensures multiset(Without(s, cs))[c] == multiset(s)[c]
  {
    if s != [] {
      WithoutKeeps(s[1..], cs, c);
      assert s == [s[0]] + s[1..];
      var head := if s[0] in cs then [] else [s[0]];
      assert Without(s, cs) == head + Without(s[1..], cs);
    }
  }

  /** Texts that join two pieces at the first occurrence of `c` split back
      into the same pieces. */
  lemma SplitAtFirst(a1: string, b1: string, a2: string, b2: string, c: char)
    requires c !in a1 && c !in a2
    requires a1 + [c] + b1 == a2 + [c] + b2
    ensures a1 == a2 && b1 == b2
  {
    var s := a1 + [c] + b1;
    assert s[|a1|] == c && s[|a2|] == c;
    assert forall i :: 0 <= i < |a1| ==> s[i] == a1[i] != c;
    assert forall i :: 0 <= i < |a2| ==> s[i] == a2[i] != c;
    assert a1 == s[..|a1|] && a2 == s[..|a2|];
    assert b1 == s[|a1| + 1..] && b2 == s[|a2| + 1..];
  }

  /** Deleting one set of characters and then another deletes their union. */
  lemma {:induction false} WithoutTwice(s: string, cs: set<char>, ds: set<char>)
    ensures Without(Without(s, cs), ds) == Without(s, cs + ds)
  {
    if s != [] {
      WithoutTwice(s[1..], cs, ds);
    }
  }

  /** Deleting from a concatenation deletes from each piece. */
  lemma {:induction false} WithoutConcat(a: string, b: string, cs: set<char>)
    ensures Without(a + b, cs) == Without(a, cs) + Without(b, cs)
  {
    if a != [] {
      assert (a + b)[1..] == a[1..] + b;
      WithoutConcat(a[1..], b, cs);
    } else {
      assert a + b == b;
    }
  }

  /** Deleting characters that `sep` does not hold from `a + sep + b`
      deletes them from `a` and from `b`. */
  lemma WithoutAround(a: string, sep: string, b: string, cs: set<char>)
    requires Avoids(sep, cs)
    ensures Without(a + sep + b, cs) == Without(a, cs) + sep + Without(b, cs)
  {
    WithoutConcat(a + sep, b, cs);
    WithoutConcat(a, sep, cs);
  }

  /** Deleting characters that the separator does not hold commutes with joining. */
  lemma {:induction false} WithoutJoin(parts: seq<string>, sep: string, cs: set<char>)
    requires Avoids(sep, cs)
    ensures Without(Join(parts, sep), cs) == Join(WithoutEach(parts, cs), sep)
  {
    if |parts| >= 2 {
      var rest := Join(parts[1..], sep);
      WithoutConcat(parts[0] + sep, rest, cs);
      WithoutConcat(parts[0], sep, cs);
      WithoutJoin(parts[1..], sep, cs);
      assert WithoutEach(parts, cs)[1..] == WithoutEach(parts[1..], cs);
    }
  }

  /** When no part holds `c` and the separator holds it exactly once, the
      joined text holds `c` once per gap between neighbouring parts. */
  lemma {:induction false} JoinCount(parts: seq<string>, sep: string, c: char)
    requires |parts| > 0
    requires forall i :: 0 <= i < |parts| ==> c !in parts[i]
    requires multiset(sep)[c] == 1
    ensures multiset(Join(parts, sep))[c] == |parts| - 1
  {
    if |parts| == 1 {
      assert c !in multiset(parts[0]);
    } else {
      JoinCount(parts[1..], sep, c);
      assert c !in multiset(parts[0]);
      assert multiset(parts[0] + sep + Join(parts[1..], sep))
          == multiset(parts[0]) + multiset(sep) + multiset(Join(parts[1..], sep));
    }
  }

  /** Joining never invents characters: every character of the result comes
      from a part or from the separator. */
  lemma {:induction false} JoinAvoids(parts: seq<string>, sep: string, cs: set<char>)
    requires Avoids(sep, cs)
    requires forall i :: 0 <= i < |parts| ==> Avoids(parts[i], cs)
    ensures Avoids(Join(parts, sep), cs)
  {
    if |parts| >= 2 {
      JoinAvoids(parts[1..], sep, cs);
    }
  }
}
