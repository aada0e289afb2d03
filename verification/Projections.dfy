// Mapping sequences and filtering them by key, up to permutation.
module Projections {
  function Map<T, F>(f: T -> F, s: seq<T>): (r: seq<F>)
    ensures |r| == |s| && forall i | 0 <= i < |s| :: r[i] == f(s[i])
  {
    seq(|s|, i requires 0 <= i < |s| => f(s[i]))
  }

  function Without<T>(s: seq<T>, k: nat): seq<T>
    requires k < |s|
  {
    s[..k] + s[k + 1..]
  }

  lemma WithoutMultiset<T>(s: seq<T>, k: nat)
    requires k < |s|
    ensures multiset(s) == multiset(Without(s, k)) + multiset{s[k]}
    ensures multiset(Without(s, k)) == multiset(s) - multiset{s[k]}
  {
    assert s == s[..k] + [s[k]] + s[k + 1..];
  }

  lemma MapWithout<T, F>(f: T -> F, s: seq<T>, k: nat)
    requires k < |s|
    ensures multiset(Map(f, s)) == multiset(Map(f, Without(s, k))) + multiset{f(s[k])}
  {
    assert Without(Map(f, s), k) == Map(f, Without(s, k));
    WithoutMultiset(Map(f, s), k);
  }

  lemma Find<T>(s: seq<T>, t: seq<T>) returns (k: nat)
    requires s != [] && multiset(s) == multiset(t)
    ensures k < |t| && t[k] == s[0] && multiset(Without(s, 0)) == multiset(Without(t, k))
  {
    assert s[0] in multiset(t);
    k :| 0 <= k < |t| && t[k] == s[0];
    WithoutMultiset(s, 0);
    WithoutMultiset(t, k);
  }

  lemma {:induction false} MapPermutation<T, F>(f: T -> F, s: seq<T>, t: seq<T>)
    requires multiset(s) == multiset(t)
    ensures multiset(Map(f, s)) == multiset(Map(f, t))
    decreases |s|
  {
    if s == [] {
      assert |t| == |multiset(t)|;
      assert Map(f, s) == Map(f, t);
    } else {
      var k := Find(s, t);
      MapPermutation(f, Without(s, 0), Without(t, k));
      MapWithout(f, s, 0);
      MapWithout(f, t, k);
    }
  }

  ghost function Select<F, K>(s: seq<F>, key: F -> K, k: K): seq<F> {
    if s == [] then [] else
    var rest := Select(s[..|s| - 1], key, k);
    if key(s[|s| - 1]) == k then rest + [s[|s| - 1]] else rest
  }

  lemma {:induction false} SelectCount<F, K>(s: seq<F>, key: F -> K, k: K, x: F)
    ensures multiset(Select(s, key, k))[x] == if key(x) == k then multiset(s)[x] else 0
  {
    if s != [] {
      SelectCount(s[..|s| - 1], key, k, x);
      assert s == s[..|s| - 1] + [s[|s| - 1]];
    }
  }

  /** Filtering by key commutes with permuting. */
  lemma SelectPermutation<F(!new), K>(s: seq<F>, t: seq<F>, key: F -> K, k: K)
    requires multiset(s) == multiset(t)
    ensures multiset(Select(s, key, k)) == multiset(Select(t, key, k))
  {
    forall x
      ensures multiset(Select(s, key, k))[x] == multiset(Select(t, key, k))[x]
    {
      SelectCount(s, key, k, x);
      SelectCount(t, key, k, x);
    }
  }

  function Least(a: nat, b: nat): nat {
    if a < b then a else b
  }

  lemma {:induction false} SelectPrefix<F, K>(s: seq<F>, key: F -> K, k: K, lo: nat, hi: nat, n: nat)
    requires lo <= hi <= |s| && n <= |s|
    requires forall i | 0 <= i < |s| :: key(s[i]) == k <==> lo <= i < hi
    ensures Select(s[..n], key, k) == s[Least(lo, n)..Least(hi, n)]
  {
    if n > 0 {
      SelectPrefix(s, key, k, lo, hi, n - 1);
      assert s[..n][..n - 1] == s[..n - 1];
      assert s[..n][n - 1] == s[n - 1];
    }
  }

  /** When the elements with key k are exactly those of s[lo..hi], filtering gives that slice. */
  lemma SelectWindow<F, K>(s: seq<F>, key: F -> K, k: K, lo: nat, hi: nat)
    requires lo <= hi <= |s|
    requires forall i | 0 <= i < |s| :: key(s[i]) == k <==> lo <= i < hi
    ensures Select(s, key, k) == s[lo..hi]
  {
    SelectPrefix(s, key, k, lo, hi, |s|);
    assert s[..|s|] == s && Least(lo, |s|) == lo && Least(hi, |s|) == hi;
  }
}
