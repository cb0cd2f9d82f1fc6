/** Python's ordering of `str` values and the `sorted` builtin, as far as the
    aggregation uses them: timestamps are opaque strings, compared code point
    by code point, and a proper prefix sorts before its extensions. */
module Lexicographic {

  /** `a < b` on Python strings. */
  predicate Below(a: string, b: string)
    decreases |a|
  {
    if |a| == 0 then |b| > 0
    else if |b| == 0 then false
    else if a[0] != b[0] then a[0] < b[0]
    else Below(a[1..], b[1..])
  }

  lemma {:induction false} BelowIrreflexive(a: string)
    ensures !Below(a, a)
    decreases |a|
  {
    if |a| > 0 {
      BelowIrreflexive(a[1..]);
    }
  }

  lemma {:induction false} BelowAsymmetric(a: string, b: string)
    ensures !(Below(a, b) && Below(b, a))
    decreases |a|
  {
    if |a| > 0 && |b| > 0 && a[0] == b[0] {
      BelowAsymmetric(a[1..], b[1..]);
    }
  }

  lemma {:induction false} BelowTransitive(a: string, b: string, c: string)
    requires Below(a, b) && Below(b, c)
    ensures Below(a, c)
    decreases |a|
  {
    if |a| > 0 && a[0] == b[0] && b[0] == c[0] {
      BelowTransitive(a[1..], b[1..], c[1..]);
    }
  }

  /** Any two distinct strings are ordered one way or the other. */
  lemma {:induction false} BelowTotal(a: string, b: string)
    ensures a == b || Below(a, b) || Below(b, a)
    decreases |a|
  {
    if |a| > 0 && |b| > 0 && a[0] == b[0] {
      BelowTotal(a[1..], b[1..]);
      assert a == [a[0]] + a[1..];
      assert b == [b[0]] + b[1..];
    }
  }

  /** Strictly increasing, hence also free of duplicates. */
  predicate Ascending(s: seq<string>) {
    forall i, j {:trigger Below(s[i], s[j])} :: 0 <= i < j < |s| ==> Below(s[i], s[j])
  }

  lemma AscendingNoDuplicates(s: seq<string>, i: int, j: int)
    requires Ascending(s) && 0 <= i < j < |s|
    ensures s[i] != s[j]
  {
    BelowIrreflexive(s[i]);
  }

  lemma AscendingCons(x: string, s: seq<string>)
    requires Ascending(s)
    requires forall y :: y in s ==> Below(x, y)
    ensures Ascending([x] + s)
  {
    var r := [x] + s;
    forall i, j | 0 <= i < j < |r|
      ensures Below(r[i], r[j])
    {
      if i > 0 {
        assert r[i] == s[i - 1] && r[j] == s[j - 1];
      } else {
        assert r[j] == s[j - 1];
        assert r[j] in s;
      }
    }
  }

  lemma BelowAllOfAscending(x: string, s: seq<string>)
    requires Ascending(s) && |s| > 0 && Below(x, s[0])
    ensures forall y :: y in s ==> Below(x, y)
  {
    forall y | y in s
      ensures Below(x, y)
    {
      var j :| 0 <= j < |s| && s[j] == y;
      if j > 0 {
        BelowTransitive(x, s[0], y);
      }
    }
  }

  /** Insertion of a new element into a strictly ascending sequence. */
  function Insert(s: seq<string>, x: string): (r: seq<string>)
    requires Ascending(s) && x !in s
    ensures Ascending(r)
    ensures forall y :: y in r <==> y in s || y == x
    ensures |r| == |s| + 1
  {
    if s == [] then
      [x]
    else if Below(x, s[0]) then
      BelowAllOfAscending(x, s);
      AscendingCons(x, s);
      [x] + s
    else
      BelowTotal(x, s[0]);
      var rest := Insert(s[1..], x);
      assert forall y :: y in s[1..] ==> y in s;
      assert forall y :: y in rest ==> Below(s[0], y) by {
        forall y | y in rest
          ensures Below(s[0], y)
        {
          if y != x {
            var j :| 0 <= j < |s[1..]| && s[1..][j] == y;
            assert s[j + 1] == y;
          }
        }
      }
      AscendingCons(s[0], rest);
      assert forall y :: y in s <==> y == s[0] || y in s[1..] by {
        assert s == [s[0]] + s[1..];
      }
      [s[0]] + rest
  }

  /** The value of `sorted(keys)`: the keys in ascending order. */
  ghost function SortedSet(keys: set<string>): (r: seq<string>)
    ensures Ascending(r)
    ensures forall y :: y in r <==> y in keys
    ensures |r| == |keys|
    decreases keys
  {
    if keys == {} then
      []
    else
      var k :| k in keys;
      var rest := SortedSet(keys - {k});
      assert |keys - {k}| == |keys| - 1;
      Insert(rest, k)
  }

  lemma HeadBelowOthers(s: seq<string>, y: string)
    requires Ascending(s) && y in s
    ensures y == s[0] || Below(s[0], y)
  {
    var k :| 0 <= k < |s| && s[k] == y;
  }

  /** A strictly ascending sequence is determined by its elements. */
  lemma {:induction false} AscendingUnique(a: seq<string>, b: seq<string>)
    requires Ascending(a) && Ascending(b)
    requires forall y :: y in a <==> y in b
    ensures a == b
    decreases |a|
  {
    assert a == [] <==> b == [] by {
      if a != [] { assert a[0] in b; }
      if b != [] { assert b[0] in a; }
    }
    if a != [] {
      // each head is the least element of the common set
      HeadBelowOthers(a, b[0]);
      HeadBelowOthers(b, a[0]);
      BelowAsymmetric(a[0], b[0]);
      assert a[0] == b[0];
      forall y
        ensures y in a[1..] <==> y in b[1..]
      {
        if y in a[1..] {
          var k :| 0 <= k < |a[1..]| && a[1..][k] == y;
          AscendingNoDuplicates(a, 0, k + 1);
          assert y in a;
          var l :| 0 <= l < |b| && b[l] == y;
          assert b[1..][l - 1] == y;
        }
        if y in b[1..] {
          var k :| 0 <= k < |b[1..]| && b[1..][k] == y;
          AscendingNoDuplicates(b, 0, k + 1);
          assert y in b;
          var l :| 0 <= l < |a| && a[l] == y;
          assert a[1..][l - 1] == y;
        }
      }
      AscendingUnique(a[1..], b[1..]);
      assert a == [a[0]] + a[1..];
      assert b == [b[0]] + b[1..];
    }
  }

  /** `sorted(keys)`: builds the ascending sequence by repeated insertion. */
  method Sorted(keys: set<string>) returns (r: seq<string>)
    ensures Ascending(r)
    ensures forall y :: y in r <==> y in keys
    ensures r == SortedSet(keys)
  {
    r := [];
    var rest := keys;
    while rest != {}
      invariant rest <= keys
      invariant Ascending(r)
      invariant forall y :: y in r <==> y in keys && y !in rest
      decreases rest
    {
      var k :| k in rest;
      r := Insert(r, k);
      rest := rest - {k};
    }
    AscendingUnique(r, SortedSet(keys));
  }
}
