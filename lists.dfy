/** Sequences without repetitions: the order-preserving deduplication the
    modelled code performs with dictionaries and "seen" sets. */
module Lists {

  predicate Distinct<T(==)>(s: seq<T>) {
    forall i, j :: 0 <= i < j < |s| ==> s[i] != s[j]
  }

  /** The elements of `s` in the order of their first occurrence. */
  function Dedup<T(==,!new)>(s: seq<T>): (r: seq<T>)
    ensures Distinct(r)
    ensures forall x :: x in r <==> x in s
    ensures |r| <= |s|
  {
    if |s| == 0 then []
    else
      var d := Dedup(s[..|s| - 1]);
      if s[|s| - 1] in d then d else d + [s[|s| - 1]]
  }

  function Elements<T>(s: seq<T>): set<T> {
    set x | x in s
  }

  /** A sequence without repetitions has as many elements as it has distinct values. */
  lemma {:induction false} DistinctCard<T>(s: seq<T>)
    requires Distinct(s)
    ensures |Elements(s)| == |s|
  {
    if |s| > 0 {
      var u := s[..|s| - 1];
      DistinctCard(u);
      assert Elements(s) == Elements(u) + {s[|s| - 1]};
      assert s[|s| - 1] !in Elements(u);
    }
  }

  /** `Dedup(s)` has exactly one entry per distinct value of `s`. */
  lemma DedupCard<T(!new)>(s: seq<T>)
    ensures |Dedup(s)| == |Elements(s)|
  {
    DistinctCard(Dedup(s));
    assert Elements(Dedup(s)) == Elements(s);
  }

  lemma {:induction false} DistinctCount<T>(s: seq<T>, x: T)
    requires Distinct(s)
    ensures multiset(s)[x] <= 1
  {
    if |s| > 0 {
      var u := s[..|s| - 1];
      DistinctCount(u, x);
      assert s == u + [s[|s| - 1]];
      if x == s[|s| - 1] {
        assert x !in u;
      }
    }
  }

  /** A rearrangement of a sequence without repetitions has none either. */
  lemma DistinctPermutation<T>(a: seq<T>, b: seq<T>)
    requires Distinct(a) && multiset(a) == multiset(b)
    ensures Distinct(b)
  {
    forall i, j | 0 <= i < j < |b|
      ensures b[i] != b[j]
    {
      if b[i] == b[j] {
        var x := b[i];
        assert b == b[..j] + b[j..];
        assert x in b[..j] && x in b[j..];
        assert multiset(b)[x] == multiset(b[..j])[x] + multiset(b[j..])[x];
        DistinctCount(a, x);
      }
    }
  }

  /** `list(range(a, b))` */
  function Range(a: nat, b: nat): (r: seq<nat>)
    requires a <= b
  {
    seq(b - a, k requires 0 <= k < b - a => a + k)
  }

  lemma RangeAppend(a: nat, b: nat, c: nat)
    requires a <= b <= c
    ensures Range(a, b) + Range(b, c) == Range(a, c)
  {
    assert forall k :: 0 <= k < c - a ==> (Range(a, b) + Range(b, c))[k] == a + k;
  }

  lemma RangeDistinct(a: nat, b: nat)
    requires a <= b
    ensures Distinct(Range(a, b))
    ensures forall x :: x in Range(a, b) <==> a <= x < b
  {
    var r := Range(a, b);
    assert |r| == b - a;
    forall x | a <= x < b
      ensures x in r
    {
      assert r[x - a] == x;
    }
  }

  /** Two sequences without repetitions and with no common element concatenate
      to one without repetitions. */
  lemma DistinctAppend<T>(a: seq<T>, b: seq<T>)
    requires Distinct(a) && Distinct(b)
    requires forall x :: x in a ==> x !in b
    ensures Distinct(a + b)
  {
    forall i, j | 0 <= i < j < |a + b|
      ensures (a + b)[i] != (a + b)[j]
    {
      if i < |a| && j >= |a| {
        assert (a + b)[i] in a && (a + b)[j] == b[j - |a|];
      }
    }
  }

  /** A sequence without repetitions whose values are exactly `0 .. n - 1`
      has length `n`. */
  lemma DistinctRangeCard(s: seq<nat>, n: nat)
    requires Distinct(s)
    requires forall x: nat :: x in s <==> x < n
    ensures |s| == n
  {
    RangeDistinct(0, n);
    assert Elements(s) == Elements(Range(0, n));
    DistinctCard(s);
    DistinctCard(Range(0, n));
  }

  /** Deduplicating one more value keeps it only if it is new. */
  lemma DedupSnoc<T(!new)>(s: seq<T>, x: T)
    ensures Dedup(s + [x]) == if x in s then Dedup(s) else Dedup(s) + [x]
  {
    assert (s + [x])[..|s|] == s;
  }

  /** A prefix grows by the next element. */
  lemma PrefixStep<T>(s: seq<T>, i: nat, x: T)
    requires i < |s| && s[i] == x
    ensures s[..i + 1] == s[..i] + [x]
  {
  }

  /** The index of the first occurrence of `x` in `s`. */
  function FirstIndex<T(==)>(s: seq<T>, x: T): (r: nat)
    requires x in s
    ensures r < |s| && s[r] == x && x !in s[..r]
  {
    if s[0] == x then 0
    else
      var r := 1 + FirstIndex(s[1..], x);
      assert s[..r] == [s[0]] + s[1..][..r - 1];
      r
  }

  lemma FirstIndexUnique<T>(s: seq<T>, x: T, k: nat)
    requires k < |s| && s[k] == x && x !in s[..k]
    ensures FirstIndex(s, x) == k
  {
  }

  /** `Dedup` lists the values in the order of their first occurrence. */
  lemma {:induction false} DedupOrder<T(!new)>(s: seq<T>)
    ensures forall i, j :: 0 <= i < j < |Dedup(s)| ==>
              FirstIndex(s, Dedup(s)[i]) < FirstIndex(s, Dedup(s)[j])
  {
    if |s| > 0 {
      var u, x := s[..|s| - 1], s[|s| - 1];
      assert s == u + [x];
      DedupOrder(u);
      var d := Dedup(u);
      forall y | y in u
        ensures FirstIndex(s, y) == FirstIndex(u, y)
      {
        var k := FirstIndex(u, y);
        assert s[..k] == u[..k];
        FirstIndexUnique(s, y, k);
      }
      if x !in u {
        assert s[..|u|] == u;
        FirstIndexUnique(s, x, |u|);
      }
    }
  }

  /** Appending never moves a first occurrence. */
  lemma FirstIndexPrefix<T>(s: seq<T>, t: seq<T>, x: T)
    requires x in s
    ensures FirstIndex(s + t, x) == FirstIndex(s, x)
  {
    var k := FirstIndex(s, x);
    assert (s + t)[..k] == s[..k];
    FirstIndexUnique(s + t, x, k);
  }

  lemma FirstIndexLast<T>(s: seq<T>, x: T)
    requires x !in s
    ensures FirstIndex(s + [x], x) == |s|
  {
    assert (s + [x])[..|s|] == s;
    FirstIndexUnique(s + [x], x, |s|);
  }

  /** `[f(x) for x in s]` */
  function Map<A, B>(s: seq<A>, f: A -> B): (r: seq<B>)
    ensures |r| == |s|
  {
    seq(|s|, i requires 0 <= i < |s| => f(s[i]))
  }

  lemma MapAppend<A, B>(a: seq<A>, b: seq<A>, f: A -> B)
    ensures Map(a + b, f) == Map(a, f) + Map(b, f)
  {
  }
}
