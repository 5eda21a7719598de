/** Python's stable sort (`list.sort` and `sorted`) as a stable insertion sort
    parameterised by a "may come before" relation, with the facts the modelled
    code relies on: the result is a permutation, it is ordered, elements that
    compare equal keep their relative order, and the order is unique when no
    two distinct elements compare equal. */
module Sorting {

  /** `leq` is total and transitive, as a key comparison is. */
  ghost predicate TotalPreorder<T(!new)>(leq: (T, T) -> bool) {
    (forall a, b :: leq(a, b) || leq(b, a))
    && (forall a, b, c :: leq(a, b) && leq(b, c) ==> leq(a, c))
  }

  predicate Sorted<T(!new)>(s: seq<T>, leq: (T, T) -> bool) {
    forall i, j :: 0 <= i < j < |s| ==> leq(s[i], s[j])
  }

  function Filter<T(!new)>(s: seq<T>, p: T -> bool): (r: seq<T>)
    ensures |r| <= |s|
    ensures forall x :: x in r ==> x in s && p(x)
  {
    if |s| == 0 then []
    else (if p(s[0]) then [s[0]] else []) + Filter(s[1..], p)
  }

  lemma {:induction false} FilterAppend<T(!new)>(a: seq<T>, b: seq<T>, p: T -> bool)
    ensures Filter(a + b, p) == Filter(a, p) + Filter(b, p)
    decreases |a|
  {
    if |a| == 0 {
      assert a + b == b;
    } else {
      assert (a + b)[1..] == a[1..] + b;
      FilterAppend(a[1..], b, p);
    }
  }

  /** A filter drops nothing exactly when every element passes it, and then
      it returns its input. */
  lemma {:induction false} FilterKeepsAll<T(!new)>(s: seq<T>, p: T -> bool)
    ensures |Filter(s, p)| == |s| <==> forall i :: 0 <= i < |s| ==> p(s[i])
    ensures (forall i :: 0 <= i < |s| ==> p(s[i])) ==> Filter(s, p) == s
    decreases |s|
  {
    if |s| > 0 {
      FilterKeepsAll(s[1..], p);
      assert forall i :: 1 <= i < |s| ==> s[i] == s[1..][i - 1];
      assert s == [s[0]] + s[1..];
    }
  }

  /** A filter keeps exactly the elements that pass it. */
  lemma {:induction false} FilterMember<T(!new)>(s: seq<T>, p: T -> bool, x: T)
    ensures x in Filter(s, p) <==> x in s && p(x)
    decreases |s|
  {
    if |s| > 0 {
      FilterMember(s[1..], p, x);
      assert s == [s[0]] + s[1..];
    }
  }

  /** An element that passes the filter lands at its rank: the number of
      passing elements before it. */
  lemma FilterRank<T(!new)>(s: seq<T>, p: T -> bool, j: nat)
    requires j < |s| && p(s[j])
    ensures |Filter(s[..j], p)| < |Filter(s, p)|
    ensures Filter(s, p)[|Filter(s[..j], p)|] == s[j]
  {
    assert s == s[..j] + s[j..];
    FilterAppend(s[..j], s[j..], p);
    assert s[j..][0] == s[j];
  }

  /** Every position of the filtered sequence is the rank of some passing element. */
  lemma {:induction false} FilterRankOnto<T(!new)>(s: seq<T>, p: T -> bool, i: nat)
    requires i < |Filter(s, p)|
    ensures exists j :: 0 <= j < |s| && p(s[j]) && |Filter(s[..j], p)| == i
    decreases |s|
  {
    var n := |s| - 1;
    var init := s[..n];
    assert s == init + [s[n]];
    FilterAppend(init, [s[n]], p);
    FilterSingle(s[n], p);
    if i < |Filter(init, p)| {
      FilterRankOnto(init, p, i);
      var j :| 0 <= j < |init| && p(init[j]) && |Filter(init[..j], p)| == i;
      assert init[..j] == s[..j];
    } else {
      assert p(s[n]) && init == s[..n];
    }
  }

  /** Places `x` after the last element of `t` that may come before it. */
  function Insert<T(!new)>(x: T, t: seq<T>, leq: (T, T) -> bool): (r: seq<T>)
    ensures |r| == |t| + 1
    ensures multiset(r) == multiset(t) + multiset{x}
  {
    if |t| == 0 || leq(t[|t| - 1], x) then t + [x]
    else
      assert t == t[..|t| - 1] + [t[|t| - 1]];
      Insert(x, t[..|t| - 1], leq) + [t[|t| - 1]]
  }

  /** `sorted(s, key=…)`: a stable sort. */
  function SortBy<T(!new)>(s: seq<T>, leq: (T, T) -> bool): (r: seq<T>)
    ensures |r| == |s|
    ensures multiset(r) == multiset(s)
  {
    if |s| == 0 then []
    else
      assert s == s[..|s| - 1] + [s[|s| - 1]];
      Insert(s[|s| - 1], SortBy(s[..|s| - 1], leq), leq)
  }

  lemma {:induction false} InsertSorted<T(!new)>(x: T, t: seq<T>, leq: (T, T) -> bool)
    requires TotalPreorder(leq)
    requires Sorted(t, leq)
    ensures Sorted(Insert(x, t, leq), leq)
    decreases |t|
  {
    if |t| == 0 || leq(t[|t| - 1], x) {
    } else {
      var u := t[..|t| - 1];
      var z := t[|t| - 1];
      InsertSorted(x, u, leq);
      var v := Insert(x, u, leq);
      assert leq(x, z);
      forall y | y in v
        ensures leq(y, z)
      {
        assert y in multiset(v);
        if y != x {
          assert y in multiset(u);
          var k :| 0 <= k < |u| && u[k] == y;
          assert t[k] == y;
        }
      }
      var r := v + [z];
      forall i, j | 0 <= i < j < |r|
        ensures leq(r[i], r[j])
      {
        if j == |r| - 1 {
          assert r[i] in v;
        }
      }
    }
  }

  /** The result of `SortBy` is ordered. */
  lemma {:induction false} SortBySorted<T(!new)>(s: seq<T>, leq: (T, T) -> bool)
    requires TotalPreorder(leq)
    ensures Sorted(SortBy(s, leq), leq)
    decreases |s|
  {
    if |s| > 0 {
      SortBySorted(s[..|s| - 1], leq);
      InsertSorted(s[|s| - 1], SortBy(s[..|s| - 1], leq), leq);
    }
  }

  /** Sorting an already ordered sequence leaves it unchanged. */
  lemma {:induction false} SortByOfSorted<T(!new)>(s: seq<T>, leq: (T, T) -> bool)
    requires Sorted(s, leq)
    ensures SortBy(s, leq) == s
    decreases |s|
  {
    if |s| > 0 {
      var u := s[..|s| - 1];
      assert Sorted(u, leq);
      SortByOfSorted(u, leq);
      if |u| > 0 {
        assert leq(u[|u| - 1], s[|s| - 1]);
      }
      assert u + [s[|s| - 1]] == s;
    }
  }

  /** The elements that compare equal to `y`. */
  function EquivTo<T(!new)>(y: T, leq: (T, T) -> bool): T -> bool {
    a => leq(a, y) && leq(y, a)
  }

  /** Any two elements that compare equal to `y` may come before each other. */
  ghost predicate EquivClosed<T(!new)>(y: T, leq: (T, T) -> bool) {
    forall a, b :: leq(a, y) && leq(y, a) && leq(b, y) && leq(y, b) ==> leq(a, b)
  }

  lemma EquivClosedOfPreorder<T(!new)>(y: T, leq: (T, T) -> bool)
    requires TotalPreorder(leq)
    ensures EquivClosed(y, leq)
  {
  }

  lemma {:induction false} InsertStable<T(!new)>(x: T, t: seq<T>, y: T, leq: (T, T) -> bool)
    requires EquivClosed(y, leq)
    ensures Filter(Insert(x, t, leq), EquivTo(y, leq))
         == Filter(t, EquivTo(y, leq)) + Filter([x], EquivTo(y, leq))
    decreases |t|
  {
    var q := EquivTo(y, leq);
    if |t| == 0 || leq(t[|t| - 1], x) {
      FilterAppend(t, [x], q);
    } else {
      var u := t[..|t| - 1];
      var z := t[|t| - 1];
      assert t == u + [z];
      var v := Insert(x, u, leq);
      assert Insert(x, t, leq) == v + [z];
      InsertStable(x, u, y, leq);
      FilterAppend(v, [z], q);
      FilterAppend(u, [z], q);
      FilterSingle(x, q);
      FilterSingle(z, q);
      NotBothEquiv(y, x, z, leq);
      SwapEmpty(Filter(u, q), Filter([x], q), Filter([z], q));
    }
  }

  lemma NotBothEquiv<T(!new)>(y: T, x: T, z: T, leq: (T, T) -> bool)
    requires EquivClosed(y, leq) && !leq(z, x)
    ensures !(EquivTo(y, leq)(x) && EquivTo(y, leq)(z))
  {
  }

  lemma SwapEmpty<T>(a: seq<T>, b: seq<T>, c: seq<T>)
    requires b == [] || c == []
    ensures a + b + c == a + c + b
  {
    if b == [] {
      assert a + b == a && a + c + b == a + c;
    } else {
      assert a + c == a && a + b + c == a + b;
    }
  }

  lemma FilterSingle<T(!new)>(x: T, p: T -> bool)
    ensures Filter([x], p) == if p(x) then [x] else []
  {
    assert [x][1..] == [];
  }

  /** Stability: among the elements that compare equal to any given `y`, the
      sorted sequence keeps their order in the input. */
  lemma SortByStable<T(!new)>(s: seq<T>, y: T, leq: (T, T) -> bool)
    requires TotalPreorder(leq)
    ensures Filter(SortBy(s, leq), EquivTo(y, leq)) == Filter(s, EquivTo(y, leq))
  {
    EquivClosedOfPreorder(y, leq);
    SortByStableClosed(s, y, leq);
  }

  lemma {:induction false} SortByStableClosed<T(!new)>(s: seq<T>, y: T, leq: (T, T) -> bool)
    requires EquivClosed(y, leq)
    ensures Filter(SortBy(s, leq), EquivTo(y, leq)) == Filter(s, EquivTo(y, leq))
    decreases |s|
  {
    if |s| > 0 {
      var u := s[..|s| - 1];
      var x := s[|s| - 1];
      SortByStableClosed(u, y, leq);
      InsertStable(x, SortBy(u, leq), y, leq);
      assert s == u + [x];
      FilterAppend(u, [x], EquivTo(y, leq));
    }
  }

  /** No two distinct elements of `s` compare equal. */
  predicate Strict<T(==)>(s: seq<T>, leq: (T, T) -> bool) {
    forall i, j :: 0 <= i < |s| && 0 <= j < |s| && leq(s[i], s[j]) && leq(s[j], s[i]) ==> s[i] == s[j]
  }

  lemma MultisetTail<T>(a: seq<T>, b: seq<T>)
    requires |a| > 0 && |b| > 0 && a[0] == b[0]
    requires multiset(a) == multiset(b)
    ensures multiset(a[1..]) == multiset(b[1..])
  {
    assert a == [a[0]] + a[1..];
    assert b == [b[0]] + b[1..];
    assert multiset(a[1..]) == multiset(a) - multiset{a[0]};
    assert multiset(b[1..]) == multiset(b) - multiset{b[0]};
  }

  lemma SortedHeads<T(!new)>(a: seq<T>, b: seq<T>, leq: (T, T) -> bool)
    requires TotalPreorder(leq)
    requires |a| > 0 && multiset(a) == multiset(b)
    requires Sorted(a, leq) && Sorted(b, leq)
    requires Strict(a, leq)
    ensures |b| > 0 && a[0] == b[0]
  {
    assert a[0] in multiset(b);
    var j :| 0 <= j < |b| && b[j] == a[0];
    assert b[0] in multiset(a);
    var i :| 0 <= i < |a| && a[i] == b[0];
    assert leq(a[0], a[i]);
    assert leq(b[0], b[j]);
  }

  /** Two ordered permutations of the same elements, none of which compare equal
      unless identical, are the same sequence: the order is fixed by the key. */
  lemma {:induction false} SortedUnique<T(!new)>(a: seq<T>, b: seq<T>, leq: (T, T) -> bool)
    requires TotalPreorder(leq)
    requires multiset(a) == multiset(b)
    requires Sorted(a, leq) && Sorted(b, leq)
    requires Strict(a, leq)
    ensures a == b
    decreases |a|
  {
    assert |a| == |multiset(a)| == |b|;
    if |a| > 0 {
      SortedHeads(a, b, leq);
      MultisetTail(a, b);
      SortedUnique(a[1..], b[1..], leq);
      assert a == [a[0]] + a[1..];
      assert b == [b[0]] + b[1..];
    }
  }

  /** Sorting any rearrangement of a strictly ordered sequence restores it. */
  lemma SortByPermutation<T(!new)>(p: seq<T>, s: seq<T>, leq: (T, T) -> bool)
    requires TotalPreorder(leq)
    requires multiset(p) == multiset(s)
    requires Sorted(s, leq) && Strict(s, leq)
    ensures SortBy(p, leq) == s
  {
    SortBySorted(p, leq);
    SortedUnique(s, SortBy(p, leq), leq);
  }

  /** Python's `<=` on strings: lexicographic by code point. */
  predicate StrLeq(a: string, b: string) {
    if |a| == 0 then true
    else if |b| == 0 then false
    else if a[0] != b[0] then a[0] < b[0]
    else StrLeq(a[1..], b[1..])
  }

  lemma {:induction false} StrLeqTotal(a: string, b: string)
    ensures StrLeq(a, b) || StrLeq(b, a)
    decreases |a|
  {
    if |a| > 0 && |b| > 0 && a[0] == b[0] {
      StrLeqTotal(a[1..], b[1..]);
    }
  }

  lemma {:induction false} StrLeqTrans(a: string, b: string, c: string)
    requires StrLeq(a, b) && StrLeq(b, c)
    ensures StrLeq(a, c)
    decreases |a|
  {
    if |a| > 0 && |b| > 0 && |c| > 0 && a[0] == b[0] && b[0] == c[0] {
      StrLeqTrans(a[1..], b[1..], c[1..]);
    }
  }

  lemma {:induction false} StrLeqAntisymmetric(a: string, b: string)
    requires StrLeq(a, b) && StrLeq(b, a)
    ensures a == b
    decreases |a|
  {
    if |a| > 0 && |b| > 0 {
      StrLeqAntisymmetric(a[1..], b[1..]);
      assert a == [a[0]] + a[1..];
      assert b == [b[0]] + b[1..];
    }
  }

  /** String comparison is a total order, so `sorted` over names is well defined. */
  lemma StrLeqTotalPreorder()
    ensures TotalPreorder(StrLeq)
  {
    forall a, b
      ensures StrLeq(a, b) || StrLeq(b, a)
    {
      StrLeqTotal(a, b);
    }
    forall a, b, c | StrLeq(a, b) && StrLeq(b, c)
      ensures StrLeq(a, c)
    {
      StrLeqTrans(a, b, c);
    }
  }

  /** Any sequence of strings is strict for `StrLeq`: equal-comparing names are equal. */
  lemma StrLeqStrict(s: seq<string>)
    ensures Strict(s, StrLeq)
  {
    forall i, j | 0 <= i < |s| && 0 <= j < |s| && StrLeq(s[i], s[j]) && StrLeq(s[j], s[i])
      ensures s[i] == s[j]
    {
      StrLeqAntisymmetric(s[i], s[j]);
    }
  }

  /** Two relations that agree on the elements of `t + [x]` insert `x` at the same place. */
  lemma {:induction false} InsertCongruent<T(!new)>(x: T, t: seq<T>, l1: (T, T) -> bool, l2: (T, T) -> bool)
    requires forall a, b :: a in t + [x] && b in t + [x] ==> l1(a, b) == l2(a, b)
    ensures Insert(x, t, l1) == Insert(x, t, l2)
    decreases |t|
  {
    if |t| > 0 {
      assert t[|t| - 1] in t + [x] && x in t + [x];
      var u := t[..|t| - 1];
      forall a, b | a in u + [x] && b in u + [x]
        ensures l1(a, b) == l2(a, b)
      {
        assert a in t + [x] && b in t + [x];
      }
      InsertCongruent(x, u, l1, l2);
    }
  }

  lemma SortByMembers<T(!new)>(s: seq<T>, leq: (T, T) -> bool)
    ensures forall a :: a in SortBy(s, leq) <==> a in s
  {
    forall a
      ensures a in SortBy(s, leq) <==> a in s
    {
      assert a in SortBy(s, leq) <==> a in multiset(SortBy(s, leq));
      assert a in s <==> a in multiset(s);
    }
  }

  /** Sorting depends on the relation only through its values on the elements sorted. */
  lemma {:induction false} SortByCongruent<T(!new)>(s: seq<T>, l1: (T, T) -> bool, l2: (T, T) -> bool)
    requires forall a, b :: a in s && b in s ==> l1(a, b) == l2(a, b)
    ensures SortBy(s, l1) == SortBy(s, l2)
    decreases |s|
  {
    if |s| > 0 {
      var u := s[..|s| - 1];
      var x := s[|s| - 1];
      assert s == u + [x];
      SortByCongruent(u, l1, l2);
      var t := SortBy(u, l1);
      SortByMembers(u, l1);
      forall a, b | a in t + [x] && b in t + [x]
        ensures l1(a, b) == l2(a, b)
      {
        assert a in s && b in s;
      }
      InsertCongruent(x, t, l1, l2);
    }
  }
}
