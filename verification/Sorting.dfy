// The sort library the program calls, reduced to what its callers may rely on: the range comes out
// ordered and permuted, with no promise about ties.
module Sorting {
  ghost predicate Sorted<T>(s: seq<T>, less: (T, T) -> bool) {
    forall i, j | 0 <= i < j < |s| :: !less(s[j], s[i])
  }

  ghost predicate WeakOrder<T(!new)>(less: (T, T) -> bool) {
    && (forall a, b :: less(a, b) ==> !less(b, a))
    && (forall a, b, c :: !less(b, a) && !less(c, b) ==> !less(c, a))
  }

  function Insert<T>(x: T, s: seq<T>, less: (T, T) -> bool): (r: seq<T>)
    ensures multiset(r) == multiset(s) + multiset{x}
  {
    if s == [] || !less(s[0], x) then
      [x] + s
    else
      assert s == [s[0]] + s[1..];
      [s[0]] + Insert(x, s[1..], less)
  }

  function Sort<T>(s: seq<T>, less: (T, T) -> bool): (r: seq<T>)
    ensures multiset(r) == multiset(s)
  {
    if s == [] then
      []
    else
      assert s == [s[0]] + s[1..];
      Insert(s[0], Sort(s[1..], less), less)
  }

  lemma {:induction false} InsertSorted<T(!new)>(x: T, s: seq<T>, less: (T, T) -> bool)
    requires WeakOrder(less) && Sorted(s, less)
    ensures Sorted(Insert(x, s, less), less)
  {
    if s == [] || !less(s[0], x) {
    } else {
      InsertSorted(x, s[1..], less);
      var rest := Insert(x, s[1..], less);
      forall k | 0 <= k < |rest|
        ensures !less(rest[k], s[0])
      {
        assert rest[k] in multiset(rest);
        assert rest[k] == x || rest[k] in s[1..];
      }
    }
  }

  lemma {:induction false} SortSorted<T(!new)>(s: seq<T>, less: (T, T) -> bool)
    requires WeakOrder(less)
    ensures Sorted(Sort(s, less), less)
  {
    if s != [] {
      SortSorted(s[1..], less);
      InsertSorted(s[0], Sort(s[1..], less), less);
    }
  }

  method WriteRange<T(!new)>(a: array<T>, lo: nat, s: seq<T>)
    requires lo + |s| <= a.Length
    modifies a
    ensures forall i | lo <= i < lo + |s| :: a[i] == s[i - lo]
    ensures forall i | 0 <= i < a.Length && !(lo <= i < lo + |s|) :: a[i] == old(a[i])
  {
    for i := lo to lo + |s|
      invariant forall k | lo <= k < i :: a[k] == s[k - lo]
      invariant forall k | 0 <= k < a.Length && !(lo <= k < i) :: a[k] == old(a[k])
    {
      a[i] := s[i - lo];
    }
  }

  method SortRange<T(!new)>(a: array<T>, lo: nat, hi: nat, less: (T, T) -> bool)
    requires lo <= hi <= a.Length && WeakOrder(less)
    modifies a
    ensures Sorted(a[lo..hi], less)
    ensures multiset(a[lo..hi]) == multiset(old(a[lo..hi]))
    ensures forall i | 0 <= i < a.Length && !(lo <= i < hi) :: a[i] == old(a[i])
  {
    var before := a[lo..hi];
    var s := Sort(before, less);
    assert Sorted(s, less) by {
      SortSorted(before, less);
    }
    assert |s| == |multiset(s)| == |multiset(before)| == hi - lo;
    WriteRange(a, lo, s);
    assert a[lo..hi] == s;
  }
}
