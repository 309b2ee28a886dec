// Sums over maps and sequences, independent of any order of traversal, and lists without repetition.
module Sums {

  ghost predicate Distinct<T(!new)>(s: seq<T>) {
    forall i, j | 0 <= i < j < |s| :: s[i] != s[j]
  }

  ghost function Sum<K>(m: map<K, real>): (s: real)
    decreases |m|
  {
    if m.Keys == {} then
      0.0
    else
      var k :| k in m.Keys;
      m[k] + Sum(m - {k})
  }

  lemma SumEmpty<K>(m: map<K, real>)
    requires m.Keys == {}
    ensures Sum(m) == 0.0
  {
  }

  // Any key may be taken out first: the sum does not depend on the traversal.
  lemma {:induction false} SumPick<K>(m: map<K, real>, k: K)
    requires k in m
    ensures Sum(m) == m[k] + Sum(m - {k})
    decreases |m|
  {
    var j :| j in m.Keys && Sum(m) == m[j] + Sum(m - {j});
    if j != k {
      SumPick(m - {j}, k);
      SumPick(m - {k}, j);
      assert m - {j} - {k} == m - {k} - {j};
    }
  }

  lemma SumUpdate<K>(m: map<K, real>, k: K, v: real)
    requires k in m
    ensures Sum(m[k := v]) == Sum(m) - m[k] + v
  {
    SumPick(m, k);
    SumPick(m[k := v], k);
    assert m[k := v] - {k} == m - {k};
  }

  lemma SumExtend<K>(m: map<K, real>, k: K, v: real)
    requires k !in m
    ensures Sum(m[k := v]) == Sum(m) + v
  {
    SumPick(m[k := v], k);
    assert m[k := v] - {k} == m;
  }

  lemma {:induction false} SumMonotone<K>(a: map<K, real>, b: map<K, real>)
    requires a.Keys == b.Keys
    requires forall k | k in a :: a[k] <= b[k]
    ensures Sum(a) <= Sum(b)
    decreases |a|
  {
    if k :| k in a {
      SumPick(a, k);
      SumPick(b, k);
      SumMonotone(a - {k}, b - {k});
    } else {
      assert a == b;
    }
  }

  // Terms that are not negative sum to zero only when all of them are zero.
  lemma {:induction false} SumNonNegative<K>(m: map<K, real>)
    requires forall k | k in m :: m[k] >= 0.0
    ensures Sum(m) >= 0.0
    ensures Sum(m) == 0.0 <==> forall k | k in m :: m[k] == 0.0
    decreases |m|
  {
    if k :| k in m {
      SumPick(m, k);
      SumNonNegative(m - {k});
      assert forall j | j in m :: j == k || j in m - {k};
    }
  }

  /** The sum of a measure over a list. */
  ghost function Total<T(!new)>(f: T -> real, s: seq<T>): (r: real) {
    if s == [] then 0.0 else Total(f, s[..|s| - 1]) + f(s[|s| - 1])
  }

  lemma TotalAppend<T(!new)>(f: T -> real, s: seq<T>, x: T)
    ensures Total(f, s + [x]) == Total(f, s) + f(x)
  {
    assert (s + [x])[..|s|] == s;
  }

  lemma {:induction false} TotalRemove<T(!new)>(f: T -> real, s: seq<T>, p: nat)
    requires p < |s|
    ensures Total(f, s) == Total(f, s[..p] + s[p + 1..]) + f(s[p])
  {
    var n := |s| - 1;
    if p == n {
      assert s[..p] + s[p + 1..] == s[..n];
    } else {
      TotalRemove(f, s[..n], p);
      var t := s[..p] + s[p + 1..];
      assert t[..n - 1] == s[..n][..p] + s[..n][p + 1..];
      assert t[n - 1] == s[n];
    }
  }

  // Reordering a list does not change its sum.
  lemma {:induction false} TotalPermutation<T(!new)>(f: T -> real, a: seq<T>, b: seq<T>)
    requires multiset(a) == multiset(b)
    ensures Total(f, a) == Total(f, b)
    decreases |a|
  {
    assert |a| == |multiset(a)| == |multiset(b)| == |b|;
    if a != [] {
      var n := |a| - 1;
      assert a == a[..n] + [a[n]];
      assert a[n] in multiset(b);
      var p :| 0 <= p < |b| && b[p] == a[n];
      var b' := b[..p] + b[p + 1..];
      assert b == b[..p] + [b[p]] + b[p + 1..];
      assert multiset(b') == multiset(b) - multiset{b[p]};
      TotalRemove(f, b, p);
      TotalPermutation(f, a[..n], b');
    }
  }

  lemma {:induction false} TotalSame<T(!new)>(f: T -> real, g: T -> real, s: seq<T>)
    requires forall x | x in s :: f(x) == g(x)
    ensures Total(f, s) == Total(g, s)
  {
    if s != [] {
      TotalSame(f, g, s[..|s| - 1]);
    }
  }

  function Lookup<K(!new)>(m: map<K, real>): K -> real {
    k => if k in m then m[k] else 0.0
  }

  // Adding up a map's values along any list of its keys gives the map's sum.
  lemma {:induction false} SumInOrder<K(!new)>(m: map<K, real>, order: seq<K>)
    requires Distinct(order)
    requires forall k :: k in order <==> k in m
    ensures Total(Lookup(m), order) == Sum(m)
    decreases |order|
  {
    if order == [] {
      assert m.Keys == {};
    } else {
      var n := |order| - 1;
      var k := order[n];
      assert k in order;
      SumPick(m, k);
      forall j ensures j in order[..n] <==> j in m - {k} {
        if j in m - {k} {
          var i :| 0 <= i < |order| && order[i] == j;
          assert order[..n][i] == j;
        }
      }
      SumInOrder(m - {k}, order[..n]);
      TotalSame(Lookup(m), Lookup(m - {k}), order[..n]);
    }
  }
}
