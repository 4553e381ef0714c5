/** Ordering by an integer key, as the aggregation stages `$sort` and `$limit`
    do it. Ties between equal keys keep no particular order. */
module Ranking {

  /** Keys never increase along `s`. */
  ghost predicate NonIncreasing<T>(s: seq<T>, key: T -> int) {
    forall i, j :: 0 <= i < j < |s| ==> key(s[i]) >= key(s[j])
  }

  /** Inserts `x` before the first entry whose key is not larger. */
  function InsertDesc<T>(x: T, s: seq<T>, key: T -> int): (r: seq<T>)
    ensures |r| == |s| + 1
    ensures multiset(r) == multiset(s) + multiset{x}
  {
    if s == [] then [x]
    else if key(x) >= key(s[0]) then [x] + s
    else
      assert s == [s[0]] + s[1..];
      [s[0]] + InsertDesc(x, s[1..], key)
  }

  /** Inserting into a list ordered by non-increasing key keeps it ordered. */
  lemma {:induction false} InsertDescSorted<T>(x: T, s: seq<T>, key: T -> int)
    requires NonIncreasing(s, key)
    ensures NonIncreasing(InsertDesc(x, s, key), key)
  {
    if s != [] && key(x) < key(s[0]) {
      var rest := InsertDesc(x, s[1..], key);
      InsertDescSorted(x, s[1..], key);
      forall i | 0 <= i < |rest| ensures key(s[0]) >= key(rest[i]) {
        assert rest[i] in multiset(rest);
        if rest[i] != x {
          assert rest[i] in multiset(s[1..]);
          var j :| 0 <= j < |s[1..]| && s[1..][j] == rest[i];
          assert s[j + 1] == rest[i];
        }
      }
    }
  }

  /** Orders `s` by non-increasing key. */
  function SortDesc<T>(s: seq<T>, key: T -> int): (r: seq<T>)
    ensures NonIncreasing(r, key)
    ensures multiset(r) == multiset(s)
    ensures |r| == |s|
  {
    if s == [] then []
    else
      assert s == [s[0]] + s[1..];
      var rest := SortDesc(s[1..], key);
      InsertDescSorted(s[0], rest, key);
      InsertDesc(s[0], rest, key)
  }

  /** `$limit: n`. */
  function Take<T>(s: seq<T>, n: nat): (r: seq<T>)
    ensures |r| == if |s| <= n then |s| else n
    ensures forall i :: 0 <= i < |r| ==> r[i] == s[i]
  {
    if |s| <= n then s else s[..n]
  }

  /** In an ordered list, what lies past a cut has a key no larger than
      anything before it. */
  lemma PrefixDominates<T>(sorted: seq<T>, key: T -> int, k: nat, x: T)
    requires NonIncreasing(sorted, key) && k <= |sorted|
    requires x in sorted && x !in sorted[..k]
    ensures forall y :: y in sorted[..k] ==> key(y) >= key(x)
  {
    var j :| 0 <= j < |sorted| && sorted[j] == x;
    forall y | y in sorted[..k] ensures key(y) >= key(x) {
      var i :| 0 <= i < k && sorted[..k][i] == y;
      assert sorted[i] == y;
    }
  }

  /** Ordering then limiting keeps the entries with the largest keys: the
      result is ordered, has min(n, |s|) entries all taken from `s`, and every
      entry of `s` left out has a key no larger than any entry kept. */
  lemma TopEntries<T>(s: seq<T>, key: T -> int, n: nat)
    ensures var r := Take(SortDesc(s, key), n);
      && NonIncreasing(r, key)
      && |r| == (if |s| <= n then |s| else n)
      && multiset(r) <= multiset(s)
      && forall x :: x in s && x !in r ==> forall y :: y in r ==> key(y) >= key(x)
  {
    var sorted := SortDesc(s, key);
    var r := Take(sorted, n);
    assert r == sorted[..|r|];
    assert sorted == r + sorted[|r|..];
    assert multiset(sorted) == multiset(r) + multiset(sorted[|r|..]);
    forall x | x in s && x !in r ensures forall y :: y in r ==> key(y) >= key(x) {
      assert x in multiset(sorted);
      PrefixDominates(sorted, key, |r|, x);
    }
  }

  /** `f` tells the entries of `s` apart. */
  ghost predicate Distinct<T, K>(s: seq<T>, f: T -> K) {
    forall i, j :: 0 <= i < j < |s| ==> f(s[i]) != f(s[j])
  }

  /** An entry told apart from all others occurs once. */
  lemma OccursOnce<T, K>(s: seq<T>, f: T -> K, a: nat)
    requires Distinct(s, f) && a < |s|
    ensures multiset(s)[s[a]] == 1
  {
    var x := s[a];
    assert s == s[..a] + [x] + s[a + 1..];
    assert x !in s[..a];
    assert x !in s[a + 1..];
    assert multiset(s) == multiset(s[..a]) + multiset{x} + multiset(s[a + 1..]);
  }

  /** An entry found at two positions occurs at least twice. */
  lemma OccursTwice<T>(r: seq<T>, i: nat, j: nat)
    requires i < j < |r| && r[i] == r[j]
    ensures multiset(r)[r[i]] >= 2
  {
    assert r == r[..j] + [r[j]] + r[j + 1..];
    assert r[..j][i] == r[i];
    assert multiset(r) == multiset(r[..j]) + multiset{r[j]} + multiset(r[j + 1..]);
  }

  /** Taking a sub-multiset of entries told apart keeps them told apart; so
      ordering and limiting a grouping keeps one entry per group key. */
  lemma SubKeepsDistinct<T, K>(s: seq<T>, r: seq<T>, f: T -> K)
    requires Distinct(s, f) && multiset(r) <= multiset(s)
    ensures Distinct(r, f)
  {
    forall i, j | 0 <= i < j < |r| ensures f(r[i]) != f(r[j]) {
      if f(r[i]) == f(r[j]) {
        assert r[i] in multiset(s) && r[j] in multiset(s);
        var a :| 0 <= a < |s| && s[a] == r[i];
        var b :| 0 <= b < |s| && s[b] == r[j];
        assert a == b;
        OccursOnce(s, f, a);
        OccursTwice(r, i, j);
      }
    }
  }

  /** Replacing an entry by one with the same key keeps the keys told apart. */
  lemma UpdateKeepsDistinct<T, K>(s: seq<T>, i: nat, x: T, f: T -> K)
    requires i < |s| && Distinct(s, f) && f(x) == f(s[i])
    ensures Distinct(s[i := x], f)
  {
    var r := s[i := x];
    forall a, b | 0 <= a < b < |r| ensures f(r[a]) != f(r[b]) {
      assert f(r[a]) == f(s[a]) && f(r[b]) == f(s[b]);
    }
  }

  /** Appending an entry with a new key keeps the keys told apart. */
  lemma AppendKeepsDistinct<T, K>(s: seq<T>, x: T, f: T -> K)
    requires Distinct(s, f)
    requires forall k :: 0 <= k < |s| ==> f(s[k]) != f(x)
    ensures Distinct(s + [x], f)
  {
    var r := s + [x];
    forall a, b | 0 <= a < b < |r| ensures f(r[a]) != f(r[b]) {
      assert r[a] == s[a];
      if b < |s| { assert r[b] == s[b]; }
    }
  }
}
