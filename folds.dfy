/** The two list combinators every total in the register engine is built
    from: `filter` and an integer `reduce` that starts at 0. */
module Folds {

  /** `s.reduce((acc, x) => acc + f(x), 0)`. Integer addition is
      associative and commutative, so folding from the front gives the
      same value as JavaScript's left fold. */
  function Sum<T>(s: seq<T>, f: T -> int): int
  {
    if s == [] then 0 else f(s[0]) + Sum(s[1..], f)
  }

  /** `s.filter(keep)`: the elements that satisfy `keep`, in their order. */
  function Filter<T(==)>(s: seq<T>, keep: T -> bool): (r: seq<T>)
    ensures |r| <= |s|
    ensures forall k :: 0 <= k < |r| ==> r[k] in s && keep(r[k])
    ensures forall k :: 0 <= k < |s| && keep(s[k]) ==> s[k] in r
  {
    if s == [] then []
    else
      assert s == [s[0]] + s[1..];
      (if keep(s[0]) then [s[0]] else []) + Filter(s[1..], keep)
  }

  /** No two elements of `s` share a key. */
  predicate Distinct<T, K(==)>(s: seq<T>, key: T -> K)
  {
    forall i, j :: 0 <= i < j < |s| ==> key(s[i]) != key(s[j])
  }

  lemma {:induction false} SumAppend<T>(s: seq<T>, x: T, f: T -> int)
    ensures Sum(s + [x], f) == Sum(s, f) + f(x)
  {
    if s == [] {
      assert [] + [x] == [x];
    } else {
      assert (s + [x])[1..] == s[1..] + [x];
      SumAppend(s[1..], x, f);
    }
  }

  lemma {:induction false} SumConcat<T>(a: seq<T>, b: seq<T>, f: T -> int)
    ensures Sum(a + b, f) == Sum(a, f) + Sum(b, f)
  {
    if a == [] {
      assert [] + b == b;
    } else {
      assert (a + b)[1..] == a[1..] + b;
      SumConcat(a[1..], b, f);
    }
  }

  /** Replacing one element changes the sum by the difference of the two
      elements' contributions. */
  lemma {:induction false} SumUpdate<T>(s: seq<T>, i: nat, x: T, f: T -> int)
    requires i < |s|
    ensures Sum(s[i := x], f) == Sum(s, f) - f(s[i]) + f(x)
  {
    if i > 0 {
      assert s[i := x][1..] == s[1..][i - 1 := x];
      SumUpdate(s[1..], i - 1, x, f);
    }
  }

  /** A sum of non-negative terms is non-negative. */
  lemma {:induction false} SumNonNegative<T>(s: seq<T>, f: T -> int)
    ensures (forall k :: 0 <= k < |s| ==> f(s[k]) >= 0) ==> Sum(s, f) >= 0
  {
    if s != [] {
      SumNonNegative(s[1..], f);
    }
  }

  /** `x => keep(x) ? f(x) : 0`. */
  function KeepOrZero<T>(keep: T -> bool, f: T -> int): T -> int
  {
    x => if keep(x) then f(x) else 0
  }

  /** Summing a filtered list is summing the whole list with the
      rejected elements counted as 0. */
  lemma {:induction false} SumFilter<T>(s: seq<T>, keep: T -> bool, f: T -> int)
    ensures Sum(Filter(s, keep), f) == Sum(s, KeepOrZero(keep, f))
  {
    if s != [] {
      var head := if keep(s[0]) then [s[0]] else [];
      SumConcat(head, Filter(s[1..], keep), f);
      SumFilter(s[1..], keep, f);
    }
  }

  lemma {:induction false} SumPointwise<T>(s: seq<T>, f: T -> int, g: T -> int)
    requires forall k :: 0 <= k < |s| ==> f(s[k]) == g(s[k])
    ensures Sum(s, f) == Sum(s, g)
  {
    if s != [] {
      SumPointwise(s[1..], f, g);
    }
  }

  lemma {:induction false} SumAdd<T>(s: seq<T>, f: T -> int, g: T -> int, h: T -> int)
    requires forall k :: 0 <= k < |s| ==> f(s[k]) == g(s[k]) + h(s[k])
    ensures Sum(s, f) == Sum(s, g) + Sum(s, h)
  {
    if s != [] {
      SumAdd(s[1..], f, g, h);
    }
  }

  /** When only the element at `k` contributes, the sum is its contribution. */
  lemma {:induction false} SumOfOne<T>(s: seq<T>, k: nat, f: T -> int)
    requires k < |s|
    requires forall i :: 0 <= i < |s| && i != k ==> f(s[i]) == 0
    ensures Sum(s, f) == f(s[k])
  {
    if k == 0 {
      SumOfNone(s[1..], f);
    } else {
      SumOfOne(s[1..], k - 1, f);
    }
  }

  lemma {:induction false} SumOfNone<T>(s: seq<T>, f: T -> int)
    requires forall i :: 0 <= i < |s| ==> f(s[i]) == 0
    ensures Sum(s, f) == 0
  {
    if s != [] {
      SumOfNone(s[1..], f);
    }
  }

  /** Nothing is kept from a list none of whose elements qualifies. */
  lemma FilterNone<T>(s: seq<T>, keep: T -> bool)
    ensures (forall k :: 0 <= k < |s| ==> !keep(s[k])) ==> Filter(s, keep) == []
  {
    var r := Filter(s, keep);
    if r != [] {
      assert r[0] in s && keep(r[0]);
    }
  }

  /** Filtering the list extended by one element extends the filtered
      list by that element exactly when it is kept. */
  lemma {:induction false} FilterAppend<T>(s: seq<T>, x: T, keep: T -> bool)
    ensures Filter(s + [x], keep) == Filter(s, keep) + (if keep(x) then [x] else [])
  {
    if s == [] {
      assert [] + [x] == [x];
      assert Filter([x][1..], keep) == [];
    } else {
      assert (s + [x])[1..] == s[1..] + [x];
      FilterAppend(s[1..], x, keep);
    }
  }

  /** A filtered list keeps the keys of its elements apart. */
  lemma {:induction false} FilterDistinct<T, K>(s: seq<T>, keep: T -> bool, key: T -> K)
    requires Distinct(s, key)
    ensures Distinct(Filter(s, keep), key)
  {
    if s != [] {
      FilterDistinct(s[1..], keep, key);
      var rest := Filter(s[1..], keep);
      forall m | 0 <= m < |rest|
        ensures key(rest[m]) != key(s[0])
      {
        var k :| 0 <= k < |s[1..]| && s[1..][k] == rest[m];
        assert s[k + 1] == rest[m];
      }
    }
  }
}
