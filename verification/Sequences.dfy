// Sequences without repetition, and how often an element occurs.
module Sequences {
  ghost predicate Distinct<T>(s: seq<T>) {
    forall p, q | 0 <= p < q < |s| :: s[p] != s[q]
  }

  lemma Once<T>(s: seq<T>, x: T)
    requires Distinct(s)
    ensures multiset(s)[x] == if x in s then 1 else 0
  {
    if x in s {
      var i :| 0 <= i < |s| && s[i] == x;
      var before, after := s[..i], s[i + 1..];
      assert s == before + [x] + after;
      assert x !in before && x !in after;
    }
  }

  lemma Twice<T>(s: seq<T>, i: nat, j: nat)
    requires i < j < |s| && s[i] == s[j]
    ensures multiset(s)[s[i]] >= 2
  {
    assert s == s[..i] + [s[i]] + s[i + 1..j] + [s[j]] + s[j + 1..];
  }

  /** What is drawn from a sequence without repetition has none either. */
  lemma DrawnDistinct<T>(s: seq<T>, t: seq<T>)
    requires Distinct(s) && multiset(t) <= multiset(s)
    ensures Distinct(t)
  {
    forall p, q | 0 <= p < q < |t|
      ensures t[p] != t[q]
    {
      Once(s, t[p]);
      if t[p] == t[q] {
        Twice(t, p, q);
        assert false;
      }
    }
  }

  lemma SecondPlace<T>(s: seq<T>, a: T, p: nat) returns (q: nat)
    requires p < |s| && s[p] == a && multiset(s)[a] >= 2
    ensures q < |s| && q != p && s[q] == a
  {
    var before, after := s[..p], s[p + 1..];
    assert s == before + [a] + after;
    if a in before {
      q :| 0 <= q < |before| && before[q] == a;
    } else {
      assert multiset(before)[a] == 0;
      assert a in after;
      var r :| 0 <= r < |after| && after[r] == a;
      q := p + 1 + r;
    }
  }

  /** Two elements of a sequence, counted with repetition, have two places in it. */
  lemma TwoPlaces<T>(s: seq<T>, a: T, b: T) returns (p: nat, q: nat)
    requires multiset{a, b} <= multiset(s)
    ensures p < |s| && q < |s| && p != q && s[p] == a && s[q] == b
  {
    assert a in multiset{a, b} && b in multiset{a, b};
    p :| 0 <= p < |s| && s[p] == a;
    if a == b {
      assert multiset{a, b}[a] == 2;
      q := SecondPlace(s, a, p);
    } else {
      q :| 0 <= q < |s| && s[q] == b;
    }
  }
}
