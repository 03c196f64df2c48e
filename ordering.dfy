/** The default order of `Array.prototype.sort()` on strings, and a sort by it. */
module Ordering {

  /** `a` sorts no later than `b`: at the first position where they differ `a`
      has the smaller character, or `a` is a prefix of `b`. */
  predicate LexLe(a: string, b: string)
    decreases |a|
  {
    |a| == 0 || (|b| > 0 && (a[0] < b[0] || (a[0] == b[0] && LexLe(a[1..], b[1..]))))
  }

  lemma {:induction false} LexLeTotal(a: string, b: string)
    ensures LexLe(a, b) || LexLe(b, a)
    decreases |a|
  {
    if |a| > 0 && |b| > 0 && a[0] == b[0] {
      LexLeTotal(a[1..], b[1..]);
    }
  }

  lemma {:induction false} LexLeReflexive(a: string)
    ensures LexLe(a, a)
    decreases |a|
  {
    if |a| > 0 {
      LexLeReflexive(a[1..]);
    }
  }

  lemma {:induction false} LexLeTransitive(a: string, b: string, c: string)
    requires LexLe(a, b) && LexLe(b, c)
    ensures LexLe(a, c)
    decreases |a|
  {
    if |a| > 0 && a[0] == b[0] && b[0] == c[0] {
      LexLeTransitive(a[1..], b[1..], c[1..]);
    }
  }

  lemma {:induction false} LexLeAntisymmetric(a: string, b: string)
    requires LexLe(a, b) && LexLe(b, a)
    ensures a == b
    decreases |a|
  {
    if |a| > 0 {
      LexLeAntisymmetric(a[1..], b[1..]);
      assert a == [a[0]] + a[1..] && b == [b[0]] + b[1..];
    }
  }

  predicate Sorted(s: seq<string>) {
    forall i, j :: 0 <= i < j < |s| ==> LexLe(s[i], s[j])
  }

  predicate Distinct(s: seq<string>) {
    forall i, j :: 0 <= i < j < |s| ==> s[i] != s[j]
  }

  /** Ascending with no repeats. */
  predicate StrictlySorted(s: seq<string>) {
    forall i, j :: 0 <= i < j < |s| ==> LexLe(s[i], s[j]) && s[i] != s[j]
  }

  /** `x` placed into the sorted `s` after every element that sorts before it. */
  function Insert(x: string, s: seq<string>): (r: seq<string>)
    requires Sorted(s)
    ensures Sorted(r)
    ensures multiset(r) == multiset(s) + multiset{x}
    decreases |s|
  {
    if s == [] then [x]
    else if LexLe(x, s[0]) then
      InsertFirst(x, s);
      [x] + s
    else
      var rest := Insert(x, s[1..]);
      assert s == [s[0]] + s[1..];
      InsertAfterHead(x, s, rest);
      [s[0]] + rest
  }

  lemma InsertFirst(x: string, s: seq<string>)
    requires Sorted(s) && s != [] && LexLe(x, s[0])
    ensures Sorted([x] + s)
  {
    forall j | 0 < j < |s| ensures LexLe(x, s[j]) {
      LexLeTransitive(x, s[0], s[j]);
    }
  }

  lemma InsertAfterHead(x: string, s: seq<string>, rest: seq<string>)
    requires Sorted(s) && s != [] && !LexLe(x, s[0])
    requires Sorted(rest) && multiset(rest) == multiset(s[1..]) + multiset{x}
    ensures Sorted([s[0]] + rest)
  {
    LexLeTotal(x, s[0]);
    forall j | 0 <= j < |rest| ensures LexLe(s[0], rest[j]) {
      assert rest[j] in multiset(rest);
      if rest[j] != x {
        assert rest[j] in multiset(s[1..]);
        var k :| 0 <= k < |s[1..]| && s[1..][k] == rest[j];
        assert s[k + 1] == rest[j];
      }
    }
  }

  /** The keys sorted as `sort()` with no comparator sorts them: ascending, and a
      permutation of the input. */
  function Sort(s: seq<string>): (r: seq<string>)
    ensures Sorted(r)
    ensures multiset(r) == multiset(s)
    decreases |s|
  {
    if s == [] then []
    else
      assert s == s[..|s| - 1] + [s[|s| - 1]];
      Insert(s[|s| - 1], Sort(s[..|s| - 1]))
  }

  /** Only one sequence is a sorted permutation of a given one, so any correct
      sorting algorithm, stable or not, yields what `Sort` yields. */
  lemma {:induction false} SortedPermutationUnique(a: seq<string>, b: seq<string>)
    requires Sorted(a) && Sorted(b) && multiset(a) == multiset(b)
    ensures a == b
    decreases |a|
  {
    if a != [] {
      assert |b| == |a| by { assert |multiset(a)| == |a| && |multiset(b)| == |b|; }
      assert a[0] in multiset(b) && b[0] in multiset(a);
      var i :| 0 <= i < |b| && b[i] == a[0];
      var j :| 0 <= j < |a| && a[j] == b[0];
      LexLeReflexive(a[0]);
      LexLeReflexive(b[0]);
      assert LexLe(b[0], a[0]) by { if i > 0 { assert LexLe(b[0], b[i]); } }
      assert LexLe(a[0], b[0]) by { if j > 0 { assert LexLe(a[0], a[j]); } }
      LexLeAntisymmetric(a[0], b[0]);
      assert a == [a[0]] + a[1..] && b == [b[0]] + b[1..];
      assert multiset(a) == multiset([a[0]]) + multiset(a[1..]);
      assert multiset(b) == multiset([b[0]]) + multiset(b[1..]);
      forall x ensures multiset(a[1..])[x] == multiset(b[1..])[x] {
        assert multiset(a)[x] == multiset([a[0]])[x] + multiset(a[1..])[x];
        assert multiset(b)[x] == multiset([b[0]])[x] + multiset(b[1..])[x];
      }
      assert multiset(a[1..]) == multiset(b[1..]);
      SortedPermutationUnique(a[1..], b[1..]);
    }
  }

  lemma {:induction false} DistinctCountsOnce(s: seq<string>)
    requires Distinct(s)
    ensures forall x :: multiset(s)[x] <= 1
    decreases |s|
  {
    if s != [] {
      assert s == [s[0]] + s[1..];
      assert Distinct(s[1..]);
      DistinctCountsOnce(s[1..]);
      assert s[0] !in s[1..];
    }
  }

  lemma RepeatCountsTwice(t: seq<string>, i: nat, j: nat)
    requires i < j < |t|
    ensures t[i] == t[j] ==> multiset(t)[t[j]] >= 2
  {
    assert t == t[..j] + [t[j]] + t[j + 1..];
    assert t[i] == t[..j][i];
    assert t[i] in multiset(t[..j]);
  }

  /** A permutation of a sequence without repeats has none either. */
  lemma PermutationKeepsDistinct(s: seq<string>, t: seq<string>)
    requires Distinct(s) && multiset(s) == multiset(t)
    ensures Distinct(t)
  {
    DistinctCountsOnce(s);
    forall i, j | 0 <= i < j < |t| ensures t[i] != t[j] {
      RepeatCountsTwice(t, i, j);
    }
  }

  /** Sorting keys that have no repeats yields them ascending without repeats. */
  lemma SortDistinct(s: seq<string>)
    requires Distinct(s)
    ensures StrictlySorted(Sort(s))
    ensures forall x :: x in Sort(s) <==> x in s
  {
    var r := Sort(s);
    PermutationKeepsDistinct(s, r);
    forall x ensures x in r <==> x in s {
      assert x in r <==> x in multiset(r);
      assert x in s <==> x in multiset(s);
    }
  }

  /** The only ascending sequence without repeats whose one element is `x`. */
  lemma StrictlySortedSingleton(s: seq<string>, x: string)
    requires StrictlySorted(s) && forall y :: y in s <==> y == x
    ensures s == [x]
  {
    assert x in s;
    assert s[0] in s && s[|s| - 1] in s;
    assert s[0] == s[|s| - 1];
  }
}
