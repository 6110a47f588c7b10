/** Sequences with the same elements in another order. */
module Permutation {

  lemma WithoutOne<T>(t: seq<T>, n: nat)
    requires n < |t|
    ensures multiset(t) == multiset{t[n]} + multiset(t[..n] + t[n + 1..])
  {
    assert t == t[..n] + ([t[n]] + t[n + 1..]);
  }

  /** Where the other order has the first element; what remains is again a reordering. */
  lemma SameHead<T>(s: seq<T>, t: seq<T>) returns (n: nat)
    requires multiset(s) == multiset(t) && s != []
    ensures n < |t| && t[n] == s[0] && multiset(s[1..]) == multiset(t[..n] + t[n + 1..])
  {
    assert s[0] in multiset(t);
    n :| 0 <= n < |t| && t[n] == s[0];
    assert s == [s[0]] + s[1..];
    WithoutOne(t, n);
    assert multiset(s[1..]) == (multiset{s[0]} + multiset(s[1..])) - multiset{s[0]};
    assert multiset(t[..n] + t[n + 1..]) == (multiset{s[0]} + multiset(t[..n] + t[n + 1..])) - multiset{s[0]};
  }

  lemma SameMembers<T>(s: seq<T>, t: seq<T>)
    requires multiset(s) == multiset(t)
    ensures |s| == |t| && forall x :: x in s <==> x in t
  {
    assert |s| == |multiset(s)| == |multiset(t)| == |t|;
    forall x
      ensures x in s <==> x in t
    {
      assert x in multiset(s) <==> x in multiset(t);
    }
  }

  /** No two places have the same key. */
  predicate DistinctBy<T, K(==)>(s: seq<T>, key: T -> K) {
    forall i, j :: 0 <= i < j < |s| ==> key(s[i]) != key(s[j])
  }

  lemma {:induction false} DistinctOccurOnce<T, K>(s: seq<T>, key: T -> K, x: T)
    requires DistinctBy(s, key)
    ensures multiset(s)[x] <= 1
  {
    if s != [] {
      assert s == [s[0]] + s[1..];
      DistinctOccurOnce(s[1..], key, x);
      if x in s[1..] {
        var i :| 0 <= i < |s[1..]| && s[1..][i] == x;
        assert key(s[0]) != key(s[i + 1]);
      }
    }
  }

  lemma TwoPlacesOccurTwice<T>(s: seq<T>, i: nat, j: nat)
    requires i < j < |s| && s[i] == s[j]
    ensures multiset(s)[s[i]] >= 2
  {
    assert s == s[..j] + s[j..];
    assert s[..j][i] == s[i] && s[j..][0] == s[i];
    assert multiset(s[..j])[s[i]] >= 1 && multiset(s[j..])[s[i]] >= 1;
  }

  lemma DistinctReordered<T, K>(s: seq<T>, t: seq<T>, key: T -> K)
    requires multiset(s) == multiset(t) && DistinctBy(s, key)
    ensures DistinctBy(t, key)
  {
    SameMembers(s, t);
    forall i, j | 0 <= i < j < |t|
      ensures key(t[i]) != key(t[j])
    {
      assert t[i] in s && t[j] in s;
      var m :| 0 <= m < |s| && s[m] == t[i];
      var n :| 0 <= n < |s| && s[n] == t[j];
      if m == n {
        TwoPlacesOccurTwice(t, i, j);
        DistinctOccurOnce(s, key, t[i]);
      }
    }
  }
}
