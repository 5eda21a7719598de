/** Retrieval: converting index objects to hit records, Reciprocal Rank Fusion
    of a vector leg and a BM25 leg, and the mode dispatch of `retrieve_topk`.
    The index queries and the question embedding are parameters. Scores are
    Python floats, modelled as reals. */
module Retrieve {
  import opened Wrappers
  import opened Text
  import opened Lists
  import Sorting

  /** The stored properties of an index object; a missing property is None. */
  datatype Props = Props(
    chunkId: Option<int>,
    sourceDoc: Option<string>,
    elementType: Option<string>,
    sectionTitle: Option<string>,
    pageStart: Option<int>,
    pageEnd: Option<int>,
    text: Option<string>,
    textAsHtml: Option<string>,
    summary: Option<string>,
    keywords: Option<seq<string>>)

  const NoProps := Props(None, None, None, None, None, None, None, None, None, None)

  /** An object returned by an index query; its `properties` may be None. */
  datatype Obj = Obj(properties: Option<Props>)

  /** The hit dictionary handed downstream. */
  datatype Hit = Hit(
    chunkId: Option<int>,
    sourceDoc: Option<string>,
    etype: Option<string>,
    sectionTitle: Option<string>,
    pageStart: Option<int>,
    pageEnd: Option<int>,
    text: Option<string>,
    textAsHtml: Option<string>,
    summary: Option<string>,
    keywords: Option<seq<string>>)

  /** `_hit_from_obj(o)` */
  function HitFromObj(o: Obj): (h: Hit)
    ensures o.properties.None? ==> h.chunkId.None? && h.sourceDoc.None? && h.etype.None? && h.text.None?
  {
    var p := o.properties.GetOr(NoProps);
    Hit(p.chunkId, p.sourceDoc, p.elementType, p.sectionTitle, p.pageStart, p.pageEnd,
        p.text, p.textAsHtml, p.summary, p.keywords)
  }

  /** The properties a hit was read from. */
  function PropsOfHit(h: Hit): Props {
    Props(h.chunkId, h.sourceDoc, h.etype, h.sectionTitle, h.pageStart, h.pageEnd,
          h.text, h.textAsHtml, h.summary, h.keywords)
  }

  /** A hit carries every property of its object, `element_type` as its type,
      and an object without properties gives a hit whose fields are all None. */
  lemma HitFromObjKeepsProps(o: Obj)
    ensures PropsOfHit(HitFromObj(o)) == o.properties.GetOr(NoProps)
    ensures HitFromObj(o).etype == o.properties.GetOr(NoProps).elementType
  {
  }

  function HitsOf(objs: seq<Obj>): (hs: seq<Hit>)
    ensures |hs| == |objs|
    ensures forall i :: 0 <= i < |objs| ==> hs[i] == HitFromObj(objs[i])
  {
    seq(|objs|, i requires 0 <= i < |objs| => HitFromObj(objs[i]))
  }

  /** The identity of a chunk across the two legs: `(source_doc, chunk_id)`. */
  datatype Key = Key(doc: Option<string>, chunk: Option<int>)

  function KeyOf(h: Hit): Key {
    Key(h.sourceDoc, h.chunkId)
  }

  function KeysOf(hs: seq<Hit>): (ks: seq<Key>)
    ensures |ks| == |hs|
    ensures forall i :: 0 <= i < |hs| ==> ks[i] == KeyOf(hs[i])
  {
    seq(|hs|, i requires 0 <= i < |hs| => KeyOf(hs[i]))
  }

  /** `1.0 / x`, where the source raises for a zero `x`; that case is reported
      separately (`RanksOk`), so the value here does not matter. */
  function Recip(x: real): real {
    if x == 0.0 then 0.0 else 1.0 / x
  }

  /** No rank from 1 to `n` makes `rrf_k + rank` zero. */
  predicate RanksOk(n: nat, rrfK: real) {
    n == 0 || (RanksOk(n - 1, rrfK) && rrfK + n as real != 0.0)
  }

  /** What one leg adds to the score of `key`: 1/(rrf_k + rank) for every
      rank (from 1) at which the key occurs. */
  function Contribution(hs: seq<Hit>, key: Key, rrfK: real): real
  {
    if |hs| == 0 then 0.0
    else Contribution(hs[..|hs| - 1], key, rrfK)
         + (if KeyOf(hs[|hs| - 1]) == key then Recip(rrfK + |hs| as real) else 0.0)
  }

  /** The fused score of a key. */
  function Score(vec: seq<Hit>, kw: seq<Hit>, rrfK: real, key: Key): real {
    Contribution(vec, key, rrfK) + Contribution(kw, key, rrfK)
  }

  /** "May come before" for `sorted(…, key=score, reverse=True)`. */
  function ByScore(vec: seq<Hit>, kw: seq<Hit>, rrfK: real): (Key, Key) -> bool {
    (a, b) => Score(vec, kw, rrfK, a) >= Score(vec, kw, rrfK, b)
  }

  lemma ByScoreTotal(vec: seq<Hit>, kw: seq<Hit>, rrfK: real)
    ensures Sorting.TotalPreorder(ByScore(vec, kw, rrfK))
  {
  }

  /** The first hit with a given key. */
  function First(hs: seq<Hit>, key: Key): (h: Hit)
    requires key in KeysOf(hs)
    ensures KeyOf(h) == key && h in hs
  {
    if KeyOf(hs[0]) == key then hs[0]
    else
      assert KeysOf(hs[1..]) == KeysOf(hs)[1..];
      First(hs[1..], key)
  }

  /** The distinct keys, vector leg first, each at its first occurrence: the
      insertion order of the `scores` and `chosen` dictionaries. */
  function SeenOrder(vec: seq<Hit>, kw: seq<Hit>): seq<Key> {
    Dedup(KeysOf(vec + kw))
  }

  /** The keys by non-increasing score, ties in first-seen order. */
  function Ranking(vec: seq<Hit>, kw: seq<Hit>, rrfK: real): seq<Key> {
    Sorting.SortBy(SeenOrder(vec, kw), ByScore(vec, kw, rrfK))
  }

  lemma RankingKeys(vec: seq<Hit>, kw: seq<Hit>, rrfK: real)
    ensures forall k :: k in Ranking(vec, kw, rrfK) <==> k in KeysOf(vec + kw)
    ensures Distinct(Ranking(vec, kw, rrfK))
  {
    var s := SeenOrder(vec, kw);
    var r := Ranking(vec, kw, rrfK);
    forall k
      ensures k in r <==> k in s
    {
      assert k in r <==> k in multiset(r);
      assert k in s <==> k in multiset(s);
    }
    DistinctPermutation(s, r);
  }

  /** The chosen hit for each key of `t`. */
  function Pick(hs: seq<Hit>, t: seq<Key>): (r: seq<Hit>)
    requires forall k :: k in t ==> k in KeysOf(hs)
    ensures |r| == |t|
    ensures forall i :: 0 <= i < |t| ==> r[i] == First(hs, t[i])
  {
    seq(|t|, i requires 0 <= i < |t| => First(hs, t[i]))
  }

  /** `_rrf_merge(vec_hits, kw_hits, rrf_k, merge_topk)` as a value. */
  function RrfMerged(vec: seq<Hit>, kw: seq<Hit>, rrfK: real, mergeTopk: int): Result<seq<Hit>, string>
  {
    if !RanksOk(|vec|, rrfK) || !RanksOk(|kw|, rrfK) then Err("ZeroDivisionError")
    else
      var r := Ranking(vec, kw, rrfK);
      RankingKeys(vec, kw, rrfK);
      Ok(Pick(vec + kw, PyTake(r, mergeTopk)))
  }

  lemma SeenStep(p: seq<Hit>, h: Hit)
    ensures KeysOf(p + [h]) == KeysOf(p) + [KeyOf(h)]
    ensures Dedup(KeysOf(p + [h]))
         == if KeyOf(h) in Dedup(KeysOf(p)) then Dedup(KeysOf(p)) else Dedup(KeysOf(p)) + [KeyOf(h)]
  {
    assert KeysOf(p + [h])[..|p|] == KeysOf(p);
  }

  lemma ContributionStep(p: seq<Hit>, h: Hit, k: Key, rrfK: real)
    ensures Contribution(p + [h], k, rrfK)
         == Contribution(p, k, rrfK) + (if KeyOf(h) == k then Recip(rrfK + (|p| + 1) as real) else 0.0)
  {
    assert (p + [h])[..|p|] == p;
  }

  lemma KeysOfAppend(a: seq<Hit>, b: seq<Hit>)
    ensures KeysOf(a + b) == KeysOf(a) + KeysOf(b)
  {
  }

  lemma KeysOfTail(hs: seq<Hit>)
    requires |hs| > 0
    ensures KeysOf(hs) == [KeyOf(hs[0])] + KeysOf(hs[1..])
  {
  }

  lemma FirstUnfold(a: seq<Hit>, b: seq<Hit>, k: Key)
    requires |a| > 0 && k in KeysOf(a + b)
    ensures KeyOf(a[0]) == k ==> First(a + b, k) == a[0]
    ensures KeyOf(a[0]) != k ==> k in KeysOf(a[1..] + b) && First(a + b, k) == First(a[1..] + b, k)
  {
    assert (a + b)[0] == a[0];
    assert (a + b)[1..] == a[1..] + b;
  }

  lemma {:induction false} FirstAppend(a: seq<Hit>, b: seq<Hit>, k: Key)
    requires k in KeysOf(a)
    ensures k in KeysOf(a + b) && First(a + b, k) == First(a, k)
  {
    KeysOfAppend(a, b);
    KeysOfTail(a);
    FirstUnfold(a, b, k);
    if KeyOf(a[0]) != k {
      FirstAppend(a[1..], b, k);
    }
  }

  lemma FirstStep(p: seq<Hit>, h: Hit)
    ensures forall k :: k in KeysOf(p) ==> k in KeysOf(p + [h]) && First(p + [h], k) == First(p, k)
    ensures KeyOf(h) in KeysOf(p + [h])
    ensures KeyOf(h) !in KeysOf(p) ==> First(p + [h], KeyOf(h)) == h
  {
    forall k | k in KeysOf(p)
      ensures k in KeysOf(p + [h]) && First(p + [h], k) == First(p, k)
    {
      FirstAppend(p, [h], k);
    }
    assert KeysOf(p + [h])[|p|] == KeyOf(h);
    if KeyOf(h) !in KeysOf(p) {
      FirstNew(p, h);
    }
  }

  lemma FirstNew(p: seq<Hit>, h: Hit)
    requires KeyOf(h) !in KeysOf(p)
    ensures KeyOf(h) in KeysOf(p + [h]) && First(p + [h], KeyOf(h)) == h
  {
    assert KeysOf(p + [h])[|p|] == KeyOf(h);
    if |p| > 0 {
      assert KeysOf(p[1..]) == KeysOf(p)[1..];
      assert (p + [h])[1..] == p[1..] + [h];
      assert KeyOf(p[0]) == KeysOf(p)[0];
      FirstNew(p[1..], h);
    }
  }

  lemma ContributionAbsent(hs: seq<Hit>, k: Key, rrfK: real)
    requires k !in KeysOf(hs)
    ensures Contribution(hs, k, rrfK) == 0.0
  {
    if |hs| > 0 {
      assert KeysOf(hs[..|hs| - 1]) == KeysOf(hs)[..|hs| - 1];
      assert KeysOf(hs)[|hs| - 1] == KeyOf(hs[|hs| - 1]);
      ContributionAbsent(hs[..|hs| - 1], k, rrfK);
    }
  }

  /** `order` is the insertion order of the dictionaries after reading `seen`. */
  ghost predicate OrderOk(seen: seq<Hit>, order: seq<Key>) {
    order == Dedup(KeysOf(seen))
  }

  /** `chosen` keeps, for each key read so far, its first hit. */
  ghost predicate ChosenOk(seen: seq<Hit>, order: seq<Key>, chosen: map<Key, Hit>) {
    (forall k :: k in chosen <==> k in order)
    && forall k :: k in chosen ==> k in KeysOf(seen) && chosen[k] == First(seen, k)
  }

  /** `scores` holds, for each key read so far, its contributions from the
      whole of `prior` and from the part `done` of the current leg. */
  ghost predicate ScoresOk(prior: seq<Hit>, done: seq<Hit>, rrfK: real, order: seq<Key>, scores: map<Key, real>) {
    (forall k :: k in scores <==> k in order)
    && forall k :: k in scores ==> scores[k] == Contribution(prior, k, rrfK) + Contribution(done, k, rrfK)
  }

  /** The dictionaries after the hits of `prior` and then those of `done`. */
  ghost predicate Acc(prior: seq<Hit>, done: seq<Hit>, rrfK: real,
                      order: seq<Key>, scores: map<Key, real>, chosen: map<Key, Hit>) {
    OrderOk(prior + done, order) && ChosenOk(prior + done, order, chosen)
    && ScoresOk(prior, done, rrfK, order, scores)
  }

  /** The next key joins the order exactly when the dictionaries lack it. */
  lemma OrderStep(seen: seq<Hit>, h: Hit, order: seq<Key>, chosen: map<Key, Hit>)
    requires OrderOk(seen, order) && ChosenOk(seen, order, chosen)
    ensures OrderOk(seen + [h], if KeyOf(h) in chosen then order else order + [KeyOf(h)])
  {
    SeenStep(seen, h);
  }

  lemma ChosenStep(seen: seq<Hit>, h: Hit, order: seq<Key>, chosen: map<Key, Hit>)
    requires OrderOk(seen, order) && ChosenOk(seen, order, chosen)
    ensures ChosenOk(seen + [h], if KeyOf(h) in chosen then order else order + [KeyOf(h)],
                     if KeyOf(h) in chosen then chosen else chosen[KeyOf(h) := h])
  {
    FirstStep(seen, h);
  }

  lemma ScoresStep(prior: seq<Hit>, done: seq<Hit>, h: Hit, rrfK: real, rank: nat,
                   order: seq<Key>, scores: map<Key, real>, chosen: map<Key, Hit>)
    requires rank == |done| + 1 && rrfK + rank as real != 0.0
    requires ScoresOk(prior, done, rrfK, order, scores)
    requires OrderOk(prior + done, order) && ChosenOk(prior + done, order, chosen)
    ensures var key := KeyOf(h);
            ScoresOk(prior, done + [h], rrfK, if key in chosen then order else order + [key],
                     scores[key := (if key in scores then scores[key] else 0.0) + Recip(rrfK + rank as real)])
  {
    var key := KeyOf(h);
    var before := if key in scores then scores[key] else 0.0;
    var scores' := scores[key := before + Recip(rrfK + rank as real)];
    if key !in chosen {
      KeysOfAppend(prior, done);
      ContributionAbsent(prior, key, rrfK);
      ContributionAbsent(done, key, rrfK);
    }
    forall k | k in scores'
      ensures scores'[k] == Contribution(prior, k, rrfK) + Contribution(done + [h], k, rrfK)
    {
      ContributionStep(done, h, k, rrfK);
    }
  }

  /** One pass of either accumulation loop keeps `Acc`. */
  lemma AccStep(prior: seq<Hit>, done: seq<Hit>, h: Hit, rrfK: real, rank: nat,
                order: seq<Key>, scores: map<Key, real>, chosen: map<Key, Hit>,
                order': seq<Key>, scores': map<Key, real>, chosen': map<Key, Hit>)
    requires rank == |done| + 1 && rrfK + rank as real != 0.0
    requires Acc(prior, done, rrfK, order, scores, chosen)
    requires order' == if KeyOf(h) in chosen then order else order + [KeyOf(h)]
    requires chosen' == if KeyOf(h) in chosen then chosen else chosen[KeyOf(h) := h]
    requires scores' == scores[KeyOf(h) := (if KeyOf(h) in scores then scores[KeyOf(h)] else 0.0) + Recip(rrfK + rank as real)]
    ensures Acc(prior, done + [h], rrfK, order', scores', chosen')
  {
    assert prior + (done + [h]) == (prior + done) + [h];
    OrderStep(prior + done, h, order, chosen);
    ChosenStep(prior + done, h, order, chosen);
    ScoresStep(prior, done, h, rrfK, rank, order, scores, chosen);
  }

  /** The loop counter stays clear of the rank that would divide by zero. */
  lemma RanksStep(i: nat, rrfK: real)
    requires RanksOk(i, rrfK) && rrfK + (i + 1) as real != 0.0
    ensures RanksOk(i + 1, rrfK)
  {
  }

  lemma {:induction false} RanksFail(i: nat, n: nat, rrfK: real)
    requires i < n && rrfK + (i + 1) as real == 0.0
    ensures !RanksOk(n, rrfK)
  {
    if n > i + 1 {
      RanksFail(i, n - 1, rrfK);
    }
  }

  lemma TakeStep(s: seq<Hit>, i: nat)
    requires i < |s|
    ensures s[..i + 1] == s[..i] + [s[i]]
  {
  }

  lemma TakeAll(s: seq<Hit>)
    ensures s[..|s|] == s
  {
  }

  /** Reading hit `h` at `rank`: `scores[key] += 1.0 / (rrf_k + rank)` on a
      defaultdict, then `chosen.setdefault(key, h)`. */
  method Add(ghost prior: seq<Hit>, ghost done: seq<Hit>, h: Hit, rrfK: real, rank: nat,
             order: seq<Key>, scores: map<Key, real>, chosen: map<Key, Hit>)
    returns (order': seq<Key>, scores': map<Key, real>, chosen': map<Key, Hit>)
    requires rank == |done| + 1 && rrfK + rank as real != 0.0
    requires Acc(prior, done, rrfK, order, scores, chosen)
    ensures Acc(prior, done + [h], rrfK, order', scores', chosen')
  {
    var key := KeyOf(h);
    scores' := scores[key := (if key in scores then scores[key] else 0.0) + Recip(rrfK + rank as real)];
    if key in chosen {
      order', chosen' := order, chosen;
    } else {
      order', chosen' := order + [key], chosen[key := h];
    }
    AccStep(prior, done, h, rrfK, rank, order, scores, chosen, order', scores', chosen');
  }

  /** One loop of `_rrf_merge`, over the hits of one leg. */
  method AccumulateLeg(leg: seq<Hit>, ghost prior: seq<Hit>, rrfK: real,
                       order: seq<Key>, scores: map<Key, real>, chosen: map<Key, Hit>)
    returns (ok: bool, order': seq<Key>, scores': map<Key, real>, chosen': map<Key, Hit>)
    requires Acc(prior, [], rrfK, order, scores, chosen)
    ensures ok <==> RanksOk(|leg|, rrfK)
    ensures ok ==> Acc(prior, leg, rrfK, order', scores', chosen')
  {
    order', scores', chosen' := order, scores, chosen;
    ghost var done: seq<Hit> := [];
    for i := 0 to |leg|
      invariant done == leg[..i]
      invariant RanksOk(i, rrfK)
      invariant Acc(prior, done, rrfK, order', scores', chosen')
    {
      var h, rank := leg[i], i + 1;
      if rrfK + rank as real == 0.0 {
        RanksFail(i, |leg|, rrfK);
        return false, order', scores', chosen';
      }
      RanksStep(i, rrfK);
      TakeStep(leg, i);
      order', scores', chosen' := Add(prior, done, h, rrfK, rank, order', scores', chosen');
      done := done + [h];
    }
    TakeAll(leg);
    ok := true;
  }

  /** `sorted(scores.keys(), key=lambda k: scores[k], reverse=True)` as a
      "may come before" relation. */
  function ScoreLeq(scores: map<Key, real>): (Key, Key) -> bool {
    (a, b) => (if a in scores then scores[a] else 0.0) >= (if b in scores then scores[b] else 0.0)
  }

  /** `[chosen[k] for k in top]` */
  function PickFrom(chosen: map<Key, Hit>, top: seq<Key>): (r: seq<Hit>)
    requires forall k :: k in top ==> k in chosen
    ensures |r| == |top|
    ensures forall i :: 0 <= i < |top| ==> r[i] == chosen[top[i]]
  {
    seq(|top|, i requires 0 <= i < |top| => chosen[top[i]])
  }

  /** Sorting by the accumulated scores is the specified ranking. */
  lemma SortedOk(vec: seq<Hit>, kw: seq<Hit>, rrfK: real,
                 order: seq<Key>, scores: map<Key, real>, chosen: map<Key, Hit>)
    requires Acc(vec, kw, rrfK, order, scores, chosen)
    ensures Sorting.SortBy(order, ScoreLeq(scores)) == Ranking(vec, kw, rrfK)
  {
    forall a, b | a in order && b in order
      ensures ScoreLeq(scores)(a, b) == ByScore(vec, kw, rrfK)(a, b)
    {
    }
    Sorting.SortByCongruent(order, ScoreLeq(scores), ByScore(vec, kw, rrfK));
  }

  /** Reading the chosen hits of the top keys is the specified pick. */
  lemma PickedOk(vec: seq<Hit>, kw: seq<Hit>, rrfK: real, top: seq<Key>,
                 order: seq<Key>, scores: map<Key, real>, chosen: map<Key, Hit>)
    requires Acc(vec, kw, rrfK, order, scores, chosen)
    requires forall k :: k in top ==> k in order
    ensures forall k :: k in top ==> k in KeysOf(vec + kw) && k in chosen
    ensures PickFrom(chosen, top) == Pick(vec + kw, top)
  {
  }

  /** `_rrf_merge`: the same accumulation loop over each leg into
      insertion-ordered dictionaries, then a stable sort by score and a cut at
      `merge_topk`. */
  method RrfMerge(vec: seq<Hit>, kw: seq<Hit>, rrfK: real, mergeTopk: int) returns (r: Result<seq<Hit>, string>)
    ensures r == RrfMerged(vec, kw, rrfK, mergeTopk)
  {
    // `scores` and `chosen` gain their keys together, so one insertion order serves both
    var ok, order, scores, chosen := AccumulateLeg(vec, [], rrfK, [], map[], map[]);
    if !ok {
      return Err("ZeroDivisionError");
    }
    assert [] + vec == vec + [];
    ok, order, scores, chosen := AccumulateLeg(kw, vec, rrfK, order, scores, chosen);
    if !ok {
      return Err("ZeroDivisionError");
    }
    var sorted := Sorting.SortBy(order, ScoreLeq(scores));
    SortedOk(vec, kw, rrfK, order, scores, chosen);
    RankingKeys(vec, kw, rrfK);
    var top := PyTake(sorted, mergeTopk);
    PickedOk(vec, kw, rrfK, top, order, scores, chosen);
    r := Ok(PickFrom(chosen, top));
  }

  // ---- What `_rrf_merge` promises ----

  /** With a non-negative `rrf_k` no rank divides by zero. */
  lemma {:induction false} RanksOkNonNegative(n: nat, rrfK: real)
    requires rrfK >= 0.0
    ensures RanksOk(n, rrfK)
  {
    if n > 0 {
      RanksOkNonNegative(n - 1, rrfK);
    }
  }

  /** The merge fails exactly when some rank of either leg makes `rrf_k + rank` zero. */
  lemma RrfMergedFails(vec: seq<Hit>, kw: seq<Hit>, rrfK: real, mergeTopk: int)
    ensures RrfMerged(vec, kw, rrfK, mergeTopk).Err?
        <==> !RanksOk(|vec|, rrfK) || !RanksOk(|kw|, rrfK)
    ensures rrfK >= 0.0 ==> RrfMerged(vec, kw, rrfK, mergeTopk).Ok?
  {
    if rrfK >= 0.0 {
      RanksOkNonNegative(|vec|, rrfK);
      RanksOkNonNegative(|kw|, rrfK);
    }
  }

  /** Every rank adds a positive amount when `rrf_k` is non-negative. */
  lemma {:induction false} ContributionPositive(hs: seq<Hit>, k: Key, rrfK: real)
    requires rrfK >= 0.0
    ensures Contribution(hs, k, rrfK) >= 0.0
    ensures k in KeysOf(hs) ==> Contribution(hs, k, rrfK) > 0.0
  {
    if |hs| > 0 {
      var u := hs[..|hs| - 1];
      ContributionPositive(u, k, rrfK);
      var x := rrfK + |hs| as real;
      assert x > 0.0;
      assert Recip(x) > 0.0 by {
        assert Recip(x) == 1.0 / x;
      }
      assert Contribution(hs, k, rrfK) == Contribution(u, k, rrfK) + (if KeyOf(hs[|hs| - 1]) == k then Recip(x) else 0.0);
      if k in KeysOf(hs) && KeyOf(hs[|hs| - 1]) != k {
        var i :| 0 <= i < |hs| && KeysOf(hs)[i] == k;
        assert i < |u| && KeysOf(u)[i] == k;
      }
    }
  }

  /** A chunk found by both legs outscores what either leg alone gives it. */
  lemma BothLegsScoreHigher(vec: seq<Hit>, kw: seq<Hit>, rrfK: real, k: Key)
    requires rrfK >= 0.0
    requires k in KeysOf(vec) && k in KeysOf(kw)
    ensures Score(vec, kw, rrfK, k) > Contribution(vec, k, rrfK)
    ensures Score(vec, kw, rrfK, k) > Contribution(kw, k, rrfK)
  {
    ContributionPositive(vec, k, rrfK);
    ContributionPositive(kw, k, rrfK);
  }

  /** The merged list holds one hit per chunk, the first `merge_topk` of the
      ranking: no chunk twice, and `min(merge_topk, distinct chunks)` hits
      for a non-negative `merge_topk`. */
  lemma RrfMergedKeys(vec: seq<Hit>, kw: seq<Hit>, rrfK: real, mergeTopk: int)
    requires RrfMerged(vec, kw, rrfK, mergeTopk).Ok?
    ensures var r := RrfMerged(vec, kw, rrfK, mergeTopk).value;
            KeysOf(r) == PyTake(Ranking(vec, kw, rrfK), mergeTopk)
            && Distinct(KeysOf(r))
            && (mergeTopk >= 0 ==>
                  |r| == if mergeTopk < |Elements(KeysOf(vec + kw))| then mergeTopk
                         else |Elements(KeysOf(vec + kw))|)
  {
    var rk := Ranking(vec, kw, rrfK);
    RankingKeys(vec, kw, rrfK);
    var r := RrfMerged(vec, kw, rrfK, mergeTopk).value;
    var top := PyTake(rk, mergeTopk);
    assert KeysOf(r) == top;
    assert Distinct(top);
    DedupCard(KeysOf(vec + kw));
  }

  lemma RrfMergedBounded(vec: seq<Hit>, kw: seq<Hit>, rrfK: real, mergeTopk: int)
    requires RrfMerged(vec, kw, rrfK, mergeTopk).Ok? && mergeTopk >= 0
    ensures var r := RrfMerged(vec, kw, rrfK, mergeTopk).value;
            |r| <= mergeTopk && Distinct(KeysOf(r))
  {
    RrfMergedKeys(vec, kw, rrfK, mergeTopk);
  }

  /** The merged hits come by non-increasing fused score. */
  lemma RrfMergedOrdered(vec: seq<Hit>, kw: seq<Hit>, rrfK: real, mergeTopk: int)
    requires RrfMerged(vec, kw, rrfK, mergeTopk).Ok?
    ensures var r := RrfMerged(vec, kw, rrfK, mergeTopk).value;
            forall i, j :: 0 <= i < j < |r| ==>
              Score(vec, kw, rrfK, KeyOf(r[i])) >= Score(vec, kw, rrfK, KeyOf(r[j]))
  {
    ByScoreTotal(vec, kw, rrfK);
    Sorting.SortBySorted(SeenOrder(vec, kw), ByScore(vec, kw, rrfK));
    RrfMergedKeys(vec, kw, rrfK, mergeTopk);
    var r := RrfMerged(vec, kw, rrfK, mergeTopk).value;
    var rk := Ranking(vec, kw, rrfK);
    forall i, j | 0 <= i < j < |r|
      ensures Score(vec, kw, rrfK, KeyOf(r[i])) >= Score(vec, kw, rrfK, KeyOf(r[j]))
    {
      assert KeyOf(r[i]) == rk[i] && KeyOf(r[j]) == rk[j];
    }
  }

  /** Chunks with equal fused score stay in the order they were first seen,
      vector leg first: `sorted` is stable. */
  lemma RankingTiesInSeenOrder(vec: seq<Hit>, kw: seq<Hit>, rrfK: real, y: Key)
    ensures Sorting.Filter(Ranking(vec, kw, rrfK), Sorting.EquivTo(y, ByScore(vec, kw, rrfK)))
         == Sorting.Filter(SeenOrder(vec, kw), Sorting.EquivTo(y, ByScore(vec, kw, rrfK)))
  {
    ByScoreTotal(vec, kw, rrfK);
    Sorting.SortByStable(SeenOrder(vec, kw), y, ByScore(vec, kw, rrfK));
  }

  /** Each merged hit is the first hit of its chunk, and a chunk the vector
      leg found is represented by the vector leg's hit. */
  lemma RrfMergedFirstHit(vec: seq<Hit>, kw: seq<Hit>, rrfK: real, mergeTopk: int)
    requires RrfMerged(vec, kw, rrfK, mergeTopk).Ok?
    ensures var r := RrfMerged(vec, kw, rrfK, mergeTopk).value;
            forall i :: 0 <= i < |r| ==>
              KeyOf(r[i]) in KeysOf(vec + kw) && r[i] == First(vec + kw, KeyOf(r[i]))
              && (KeyOf(r[i]) in KeysOf(vec) ==> r[i] == First(vec, KeyOf(r[i])))
  {
    var r := RrfMerged(vec, kw, rrfK, mergeTopk).value;
    forall i | 0 <= i < |r|
      ensures KeyOf(r[i]) in KeysOf(vec + kw) && r[i] == First(vec + kw, KeyOf(r[i]))
      ensures KeyOf(r[i]) in KeysOf(vec) ==> r[i] == First(vec, KeyOf(r[i]))
    {
      if KeyOf(r[i]) in KeysOf(vec) {
        FirstAppend(vec, kw, KeyOf(r[i]));
      }
    }
  }

  // ---- `retrieve_topk`: settings, the vector and the mode dispatch ----

  /** The `qa` section of the configuration; a missing key is None. */
  datatype QaSection = QaSection(
    topk: Option<int>,
    retrieverMode: Option<string>,
    hybridAlpha: Option<real>,
    keywordProperties: Option<seq<string>>,
    vectorTopk: Option<int>,
    keywordTopk: Option<int>,
    mergeTopk: Option<int>,
    rrfK: Option<real>)

  /** The settings `retrieve_topk` derives before searching. */
  datatype Plan = Plan(
    mode: string,
    topk: int,
    alpha: real,
    keywordProps: seq<string>,
    vectorTopk: int,
    keywordTopk: int,
    mergeTopk: int,
    rrfK: real)

  /** `topk or qsec.get("topk", 10)`: an absent or zero argument defers to
      the configuration. */
  function EffectiveTopk(topk: Option<int>, qsec: QaSection): (k: int)
    ensures topk.Some? && topk.value != 0 ==> k == topk.value
    ensures (topk.None? || topk.value == 0) ==> k == qsec.topk.GetOr(10)
  {
    if topk.Some? && topk.value != 0 then topk.value else qsec.topk.GetOr(10)
  }

  /** `(mode or qsec.get("retriever_mode", "vector")).lower()` */
  function ModeOf(mode: Option<string>, qsec: QaSection): (m: string)
    ensures mode.Some? && mode.value != "" ==> m == Lower(mode.value)
    ensures (mode.None? || mode.value == "") ==> m == Lower(qsec.retrieverMode.GetOr("vector"))
  {
    Lower(if mode.Some? && mode.value != "" then mode.value else qsec.retrieverMode.GetOr("vector"))
  }

  function PlanOf(topk: Option<int>, mode: Option<string>, qsec: QaSection): (p: Plan)
    ensures p.mode == ModeOf(mode, qsec) && p.topk == EffectiveTopk(topk, qsec)
    ensures p.vectorTopk == qsec.vectorTopk.GetOr(p.topk)
    ensures p.keywordTopk == qsec.keywordTopk.GetOr(p.topk)
    ensures p.mergeTopk == qsec.mergeTopk.GetOr(p.topk)
  {
    var k := EffectiveTopk(topk, qsec);
    Plan(ModeOf(mode, qsec), k, qsec.hybridAlpha.GetOr(0.5),
         qsec.keywordProperties.GetOr(["text", "section_title"]),
         qsec.vectorTopk.GetOr(k), qsec.keywordTopk.GetOr(k), qsec.mergeTopk.GetOr(k),
         qsec.rrfK.GetOr(60.0))
  }

  /** `needs_vector`: the modes that search by embedding. */
  predicate NeedsVector(mode: string) {
    mode in ["vector", "hybrid"] || mode == "fusion"
  }

  /** The question vector used for searching: the given one, else the
      embedding of the question, and none at all in the other modes. */
  function QueryVector(mode: string, question: string, given: Option<seq<real>>,
                       embed: string -> seq<real>): (v: Option<seq<real>>)
    ensures v.Some? <==> NeedsVector(mode)
    ensures NeedsVector(mode) && given.Some? ==> v == given
  {
    if NeedsVector(mode) then Some(if given.Some? then given.value else embed(question)) else None
  }

  /** `Filter.by_property("source_doc").equal(source_doc)` when
      `source_doc` is truthy. */
  function FilterOf(sourceDoc: Option<string>): (f: Option<string>)
    ensures f.Some? <==> sourceDoc.Some? && sourceDoc.value != ""
    ensures f.Some? ==> f == sourceDoc
  {
    if sourceDoc.Some? && sourceDoc.value != "" then sourceDoc else None
  }

  /** One query against the collection. A vector that is None in the source
      is sent as `[]` here; only the keyword mode, which sends no vector,
      can reach that case. */
  datatype Query =
    | NearVector(vector: seq<real>, limit: int, filter: Option<string>)
    | Bm25(text: string, limit: int, properties: seq<string>, filter: Option<string>)
    | Hybrid(text: string, vector: seq<real>, alpha: real, limit: int,
             properties: seq<string>, filter: Option<string>)

  const SupportedModes: seq<string> := ["vector", "keyword", "hybrid", "fusion"]

  /** `retrieve_topk(question, question_vector, topk, source_doc, mode)`,
      given the `qa` section, the question embedder and the collection's
      query function. */
  function RetrieveTopk(question: string, questionVector: Option<seq<real>>, topk: Option<int>,
                        sourceDoc: Option<string>, mode: Option<string>, qsec: QaSection,
                        embed: string -> seq<real>, search: Query -> seq<Obj>): Result<seq<Hit>, string>
  {
    var p := PlanOf(topk, mode, qsec);
    var v := QueryVector(p.mode, question, questionVector, embed).GetOr([]);
    var f := FilterOf(sourceDoc);
    if p.mode == "vector" then
      Ok(HitsOf(search(NearVector(v, p.topk, f))))
    else if p.mode == "keyword" then
      Ok(HitsOf(search(Bm25(question, p.keywordTopk, p.keywordProps, f))))
    else if p.mode == "hybrid" then
      Ok(HitsOf(search(Hybrid(question, v, p.alpha, p.topk, p.keywordProps, f))))
    else if p.mode == "fusion" then
      var vec := HitsOf(search(NearVector(v, p.vectorTopk, f)));
      var kw := HitsOf(search(Bm25(question, p.keywordTopk, p.keywordProps, f)));
      RrfMerged(vec, kw, p.rrfK, p.mergeTopk)
    else
      Err("ValueError")
  }

  /** The mode is case-insensitive. */
  lemma RetrieveModeCaseInsensitive(question: string, questionVector: Option<seq<real>>, topk: Option<int>,
                                    sourceDoc: Option<string>, m1: string, m2: string, qsec: QaSection,
                                    embed: string -> seq<real>, search: Query -> seq<Obj>)
    requires m1 != "" && Lower(m1) == Lower(m2)
    ensures RetrieveTopk(question, questionVector, topk, sourceDoc, Some(m1), qsec, embed, search)
         == RetrieveTopk(question, questionVector, topk, sourceDoc, Some(m2), qsec, embed, search)
  {
    assert |m2| == |Lower(m2)| == |Lower(m1)|;
  }

  /** `ValueError` is raised exactly for a mode outside vector, keyword,
      hybrid and fusion; the first three always succeed. */
  lemma RetrieveUnsupportedMode(question: string, questionVector: Option<seq<real>>, topk: Option<int>,
                                sourceDoc: Option<string>, mode: Option<string>, qsec: QaSection,
                                embed: string -> seq<real>, search: Query -> seq<Obj>)
    ensures var r := RetrieveTopk(question, questionVector, topk, sourceDoc, mode, qsec, embed, search);
            (r == Err("ValueError") <==> ModeOf(mode, qsec) !in SupportedModes)
            && (ModeOf(mode, qsec) in ["vector", "keyword", "hybrid"] ==> r.Ok?)
  {
    var m := ModeOf(mode, qsec);
    if m == "fusion" {
      var p := PlanOf(topk, mode, qsec);
      var v := QueryVector(p.mode, question, questionVector, embed).GetOr([]);
      var f := FilterOf(sourceDoc);
      var vec := HitsOf(search(NearVector(v, p.vectorTopk, f)));
      var kw := HitsOf(search(Bm25(question, p.keywordTopk, p.keywordProps, f)));
      assert RrfMerged(vec, kw, p.rrfK, p.mergeTopk) != Err("ValueError");
    }
  }

  /** The question is embedded only when a mode needs a vector and none was
      given: otherwise the embedder does not influence the result. */
  lemma RetrieveEmbedsOnlyWhenNeeded(question: string, questionVector: Option<seq<real>>, topk: Option<int>,
                                     sourceDoc: Option<string>, mode: Option<string>, qsec: QaSection,
                                     embed1: string -> seq<real>, embed2: string -> seq<real>,
                                     search: Query -> seq<Obj>)
    requires questionVector.Some? || !NeedsVector(ModeOf(mode, qsec))
    ensures RetrieveTopk(question, questionVector, topk, sourceDoc, mode, qsec, embed1, search)
         == RetrieveTopk(question, questionVector, topk, sourceDoc, mode, qsec, embed2, search)
  {
    var m := ModeOf(mode, qsec);
    assert QueryVector(m, question, questionVector, embed1) == QueryVector(m, question, questionVector, embed2);
  }

  /** The vector and hybrid modes are limited by `topk` alone and the keyword
      mode by `keyword_topk` alone: two configurations that agree on those
      (and on the mode, alpha and keyword properties) give the same hits. */
  lemma RetrieveLimitsPerMode(question: string, questionVector: Option<seq<real>>, topk: Option<int>,
                              sourceDoc: Option<string>, mode: Option<string>, q1: QaSection, q2: QaSection,
                              embed: string -> seq<real>, search: Query -> seq<Obj>)
    requires q1.topk == q2.topk && q1.retrieverMode == q2.retrieverMode
    requires q1.hybridAlpha == q2.hybridAlpha && q1.keywordProperties == q2.keywordProperties
    requires ModeOf(mode, q1) in ["vector", "hybrid"]
          || (ModeOf(mode, q1) == "keyword" && q1.keywordTopk == q2.keywordTopk)
    ensures RetrieveTopk(question, questionVector, topk, sourceDoc, mode, q1, embed, search)
         == RetrieveTopk(question, questionVector, topk, sourceDoc, mode, q2, embed, search)
  {
    var p1, p2 := PlanOf(topk, mode, q1), PlanOf(topk, mode, q2);
    assert p1.mode == p2.mode && p1.topk == p2.topk;
  }

  /** Fusion returns at most `merge_topk` hits, one per chunk. */
  lemma RetrieveFusionBounded(question: string, questionVector: Option<seq<real>>, topk: Option<int>,
                              sourceDoc: Option<string>, mode: Option<string>, qsec: QaSection,
                              embed: string -> seq<real>, search: Query -> seq<Obj>)
    requires ModeOf(mode, qsec) == "fusion"
    requires PlanOf(topk, mode, qsec).mergeTopk >= 0
    requires RetrieveTopk(question, questionVector, topk, sourceDoc, mode, qsec, embed, search).Ok?
    ensures var r := RetrieveTopk(question, questionVector, topk, sourceDoc, mode, qsec, embed, search).value;
            |r| <= PlanOf(topk, mode, qsec).mergeTopk && Distinct(KeysOf(r))
  {
    var p := PlanOf(topk, mode, qsec);
    var v := QueryVector(p.mode, question, questionVector, embed).GetOr([]);
    var f := FilterOf(sourceDoc);
    var vec := HitsOf(search(NearVector(v, p.vectorTopk, f)));
    var kw := HitsOf(search(Bm25(question, p.keywordTopk, p.keywordProps, f)));
    assert RetrieveTopk(question, questionVector, topk, sourceDoc, mode, qsec, embed, search)
        == RrfMerged(vec, kw, p.rrfK, p.mergeTopk);
    RrfMergedBounded(vec, kw, p.rrfK, p.mergeTopk);
  }
}
