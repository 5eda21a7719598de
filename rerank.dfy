/** The LLM-judge reranker: a compact description of each of the first
    `max_candidates` hits, the judge's ranked ids taken in order, then the
    candidates it did not mention, the hits with nothing to describe and the
    hits beyond the candidate window, cut at `topk`. The tokenizer and the
    judge's reply are parameters. */
module Rerank {
  import opened Wrappers
  import opened Text
  import opened Lists
  import Retrieve

  type Hit = Retrieve.Hit

  /** The `cl100k_base` encoder, abstracted. */
  datatype Tokenizer = Tokenizer(encode: string -> seq<int>, decode: seq<int> -> string)

  /** `_truncate_tokens(text, max_tokens)` */
  function TruncateTokens(text: string, maxTokens: int, tok: Tokenizer): (r: string)
    ensures text == "" || maxTokens <= 0 ==> r == ""
    ensures text != "" && maxTokens > 0 && |tok.encode(text)| <= maxTokens ==> r == text
    ensures text != "" && maxTokens > 0 && |tok.encode(text)| > maxTokens ==>
              r == RStrip(tok.decode(tok.encode(text)[..maxTokens])) + "..."
              && EndsWith(r, "...") && (|r| == 3 || !IsSpace(r[|r| - 4]))
  {
    if text == "" || maxTokens <= 0 then ""
    else
      var tokens := tok.encode(text);
      if |tokens| <= maxTokens then text
      else
        var cut := RStrip(tok.decode(tokens[..maxTokens]));
        assert (cut + "...")[|cut|..] == "...";
        cut + "..."
  }

  /** The keyword list as `", ".join` receives it: each truthy keyword, stripped. */
  function KeywordPieces(keywords: seq<string>): (r: seq<string>)
    ensures |r| <= |keywords|
  {
    if |keywords| == 0 then []
    else
      var k := keywords[|keywords| - 1];
      KeywordPieces(keywords[..|keywords| - 1]) + (if k != "" then [Strip(k)] else [])
  }

  /** `parts.append(item)` when `cond` holds. */
  function AppendIf(parts: seq<string>, cond: bool, item: string): seq<string> {
    if cond then parts + [item] else parts
  }

  /** The fields a description is made of, stripped; `keywords` is the
      joined keyword list. */
  datatype Fields = Fields(section: string, keywords: string, summary: string, text: string, etype: string)

  function FieldsOf(hit: Hit): Fields {
    Fields(Strip(hit.sectionTitle.GetOr("")), Join(", ", KeywordPieces(hit.keywords.GetOr([]))),
           Strip(hit.summary.GetOr("")), Strip(hit.text.GetOr("")), Strip(hit.etype.GetOr("")))
  }

  /** The labelled fields `_candidate_content` collects, in its order, with
      `excerpt` standing for the truncated text. */
  function Labelled(f: Fields, excerpt: string): seq<string> {
    var p1 := AppendIf([], f.section != "", "section_title: " + f.section);
    var p2 := AppendIf(p1, f.keywords != "", "keywords: " + f.keywords);
    var p3 := AppendIf(p2, f.summary != "", "summary: " + f.summary);
    var p4 := AppendIf(p3, f.text != "", "excerpt: " + excerpt);
    AppendIf(p4, f.etype != "", "type: " + f.etype)
  }

  /** The description of a hit as a value. */
  function CandidateText(hit: Hit, maxTokens: int, tok: Tokenizer): string {
    var f := FieldsOf(hit);
    Join(" | ", Labelled(f, TruncateTokens(f.text, maxTokens, tok)))
  }

  /** `_candidate_content(hit, max_tokens)`: appends each non-empty field to
      `parts` and joins them. */
  method CandidateContent(hit: Hit, maxTokens: int, tok: Tokenizer) returns (r: string)
    ensures r == CandidateText(hit, maxTokens, tok)
  {
    var parts: seq<string> := [];
    var section := Strip(hit.sectionTitle.GetOr(""));
    if section != "" {
      parts := parts + ["section_title: " + section];
    }
    var keywords := hit.keywords.GetOr([]);
    if |keywords| > 0 {
      var joined := Join(", ", KeywordPieces(keywords));
      if joined != "" {
        parts := parts + ["keywords: " + joined];
      }
    }
    var summary := Strip(hit.summary.GetOr(""));
    if summary != "" {
      parts := parts + ["summary: " + summary];
    }
    var text := Strip(hit.text.GetOr(""));
    if text != "" {
      var excerpt := TruncateTokens(text, maxTokens, tok);
      parts := parts + ["excerpt: " + excerpt];
    }
    var etype := Strip(hit.etype.GetOr(""));
    if etype != "" {
      parts := parts + ["type: " + etype];
    }
    r := Join(" | ", parts);
  }

  lemma JoinEmptyIff(sep: string, parts: seq<string>)
    requires forall i :: 0 <= i < |parts| ==> parts[i] != ""
    ensures Join(sep, parts) == "" <==> parts == []
  {
    if |parts| > 0 {
      assert |Join(sep, parts)| >= |parts[0]|;
    }
  }

  /** A description is empty exactly when all five fields are. */
  lemma LabelledEmpty(f: Fields, excerpt: string)
    ensures Join(" | ", Labelled(f, excerpt)) == ""
        <==> f.section == "" && f.keywords == "" && f.summary == "" && f.text == "" && f.etype == ""
  {
    var parts := Labelled(f, excerpt);
    assert forall i :: 0 <= i < |parts| ==> |parts[i]| > 0;
    JoinEmptyIff(" | ", parts);
  }

  /** With every field present the description lists them in the order
      section title, keywords, summary, excerpt, type. */
  lemma LabelledOrder(f: Fields, excerpt: string)
    requires f.section != "" && f.keywords != "" && f.summary != "" && f.text != "" && f.etype != ""
    ensures Labelled(f, excerpt)
         == ["section_title: " + f.section, "keywords: " + f.keywords, "summary: " + f.summary,
             "excerpt: " + excerpt, "type: " + f.etype]
  {
  }

  /** Only the non-empty fields appear, each once: leaving a field empty
      removes exactly its entry. */
  lemma LabelledSkipsEmpty(f: Fields, excerpt: string)
    ensures |Labelled(f, excerpt)|
         == (if f.section != "" then 1 else 0) + (if f.keywords != "" then 1 else 0)
            + (if f.summary != "" then 1 else 0) + (if f.text != "" then 1 else 0)
            + (if f.etype != "" then 1 else 0)
  {
  }

  // ---- `rerank_hits`: the ordering ----

  /** The `rerank` section of the configuration; a missing key is None. */
  datatype RerankSection = RerankSection(topk: Option<int>, maxCandidates: Option<int>, maxTokens: Option<int>)

  /** What the judge call gives: it raised, or it returned a response whose
      `ranked_ids` may be missing and whose entries may be None. */
  datatype JudgeReply = Failed | Replied(rankedIds: Option<seq<Option<int>>>)

  /** Python's `x or d` on an optional integer. */
  function OrElse(x: Option<int>, d: int): int {
    if x.Some? && x.value != 0 then x.value else d
  }

  function Min(a: int, b: int): int {
    if a <= b then a else b
  }

  /** Which of the first `w` hits have an empty description. */
  function Blanks(hits: seq<Hit>, w: nat, maxTokens: int, tok: Tokenizer): (b: seq<bool>)
    requires w <= |hits|
    ensures |b| == w
    ensures forall i :: 0 <= i < w ==> (b[i] <==> CandidateText(hits[i], maxTokens, tok) == "")
  {
    seq(w, i requires 0 <= i < w => CandidateText(hits[i], maxTokens, tok) == "")
  }

  /** The 1-based ids of the hits with a non-empty description: the
      candidates, in increasing order. */
  function CandIds(blank: seq<bool>): (ids: seq<int>)
    ensures Distinct(ids)
    ensures forall i :: 0 <= i < |ids| ==> 1 <= ids[i] <= |blank|
    ensures forall x :: x in ids <==> 1 <= x <= |blank| && !blank[x - 1]
  {
    if |blank| == 0 then []
    else
      var prev := CandIds(blank[..|blank| - 1]);
      if !blank[|blank| - 1] then
        DistinctAppend(prev, [|blank|]);
        prev + [|blank|]
      else prev
  }

  /** The 0-based positions of the hits with an empty description. */
  function SkippedPos(blank: seq<bool>): (ps: seq<nat>)
    ensures Distinct(ps)
    ensures forall i :: 0 <= i < |ps| ==> ps[i] < |blank|
    ensures forall p :: p in ps <==> 0 <= p < |blank| && blank[p]
  {
    if |blank| == 0 then []
    else
      var prev := SkippedPos(blank[..|blank| - 1]);
      if blank[|blank| - 1] then
        DistinctAppend(prev, [|blank| - 1]);
        prev + [|blank| - 1]
      else prev
  }

  /** The judge's ids that are not None and name a candidate, in its order. */
  function ValidIds(ranked: seq<Option<int>>, cands: seq<int>): (r: seq<int>)
    ensures forall x :: x in r ==> x in cands
  {
    if |ranked| == 0 then []
    else
      var c := ranked[|ranked| - 1];
      ValidIds(ranked[..|ranked| - 1], cands) + (if c.Some? && c.value in cands then [c.value] else [])
  }

  /** The judge's picks: its valid ids, each at its first occurrence. */
  function Picks(ranked: seq<Option<int>>, cands: seq<int>): (r: seq<int>)
    ensures Distinct(r)
    ensures forall x :: x in r ==> x in cands
    ensures forall i :: 0 <= i < |r| ==> r[i] in cands
  {
    Dedup(ValidIds(ranked, cands))
  }

  /** The candidates the judge did not pick, in id order. */
  function Unpicked(cands: seq<int>, picks: seq<int>): (r: seq<int>)
    ensures forall x :: x in r <==> x in cands && x !in picks
  {
    if |cands| == 0 then []
    else
      var c := cands[|cands| - 1];
      Unpicked(cands[..|cands| - 1], picks) + (if c !in picks then [c] else [])
  }

  lemma {:induction false} UnpickedDistinct(cands: seq<int>, picks: seq<int>)
    requires Distinct(cands)
    ensures Distinct(Unpicked(cands, picks))
  {
    if |cands| > 0 {
      var c := cands[|cands| - 1];
      var u := cands[..|cands| - 1];
      UnpickedDistinct(u, picks);
      if c !in picks {
        assert c !in u;
        DistinctAppend(Unpicked(u, picks), [c]);
      }
    }
  }

  /** Ids to 0-based positions. */
  function Positions(ids: seq<int>): (ps: seq<nat>)
    requires forall i :: 0 <= i < |ids| ==> ids[i] >= 1
    ensures |ps| == |ids|
  {
    seq(|ids|, i requires 0 <= i < |ids| => ids[i] - 1)
  }

  /** The hits at the given positions. */
  function Project(hits: seq<Hit>, ps: seq<nat>): (r: seq<Hit>)
    requires forall i :: 0 <= i < |ps| ==> ps[i] < |hits|
    ensures |r| == |ps|
  {
    seq(|ps|, i requires 0 <= i < |ps| => hits[ps[i]])
  }

  /** The full ordering after a successful judge call, as positions: the
      picks, the unpicked candidates, the skipped hits of the window, then the
      `n - |blank|` hits beyond it. */
  function Ordering(blank: seq<bool>, n: nat, ranked: seq<Option<int>>): (ps: seq<nat>)
    requires |blank| <= n
    ensures forall i :: 0 <= i < |ps| ==> ps[i] < n
  {
    var cands := CandIds(blank);
    var picks := Picks(ranked, cands);
    var ids := picks + Unpicked(cands, picks);
    CandidatePositions(blank, picks, ids);
    var ps := Positions(ids) + SkippedPos(blank) + Range(|blank|, n);
    RangeDistinct(|blank|, n);
    assert forall i :: 0 <= i < |ps| ==> ps[i] in ps;
    ps
  }

  /** The hits in the order `rerank_hits` puts them before cutting at
      `topk`: the input order unless the judge picked something. */
  function Arranged(hits: seq<Hit>, maxCandidates: Option<int>, cfg: RerankSection, reply: JudgeReply,
                    tok: Tokenizer): seq<Hit>
  {
    var w := SliceIndex(|hits|, Min(OrElse(maxCandidates, cfg.maxCandidates.GetOr(5)), |hits|));
    var blank := Blanks(hits, w, cfg.maxTokens.GetOr(128), tok);
    var cands := CandIds(blank);
    if |cands| == 0 || reply.Failed? then hits
    else
      var ranked := reply.rankedIds.GetOr([]);
      if |Picks(ranked, cands)| == 0 then hits
      else Project(hits, Ordering(blank, |hits|, ranked))
  }

  /** `rerank_hits(hits, topk, question, max_candidates)` as a value. */
  function Reranked(hits: seq<Hit>, topk: Option<int>, question: Option<string>, maxCandidates: Option<int>,
                    cfg: RerankSection, reply: JudgeReply, tok: Tokenizer): seq<Hit>
  {
    if |hits| == 0 || question.None? || question.value == "" then hits
    else PyTake(Arranged(hits, maxCandidates, cfg, reply, tok), Min(OrElse(topk, cfg.topk.GetOr(|hits|)), |hits|))
  }

  lemma PositionsDistinct(ids: seq<int>)
    requires forall i :: 0 <= i < |ids| ==> ids[i] >= 1
    requires Distinct(ids)
    ensures Distinct(Positions(ids))
    ensures forall p: nat :: p in Positions(ids) <==> p + 1 in ids
  {
    var ps := Positions(ids);
    forall p: nat
      ensures p in ps <==> p + 1 in ids
    {
      if p + 1 in ids {
        var i :| 0 <= i < |ids| && ids[i] == p + 1;
        assert ps[i] == p;
      }
    }
  }

  /** Every id names one of the first `n` hits. */
  predicate IdsIn(ids: seq<int>, n: nat) {
    forall i :: 0 <= i < |ids| ==> 1 <= ids[i] <= n
  }

  /** Picks followed by the unpicked candidates are the candidates, each
      once. */
  lemma PicksThenRest(cands: seq<int>, picks: seq<int>, ids: seq<int>, n: nat)
    requires Distinct(cands) && IdsIn(cands, n)
    requires Distinct(picks) && forall i :: 0 <= i < |picks| ==> picks[i] in cands
    requires ids == picks + Unpicked(cands, picks)
    ensures Distinct(ids) && IdsIn(ids, n)
    ensures forall x :: x in ids <==> x in cands
  {
    UnpickedDistinct(cands, picks);
    DistinctAppend(picks, Unpicked(cands, picks));
    assert forall i :: 0 <= i < |ids| ==> ids[i] in cands;
    IdsInSubset(ids, cands, n);
  }

  lemma IdsInSubset(xs: seq<int>, ys: seq<int>, n: nat)
    requires IdsIn(ys, n)
    requires forall i :: 0 <= i < |xs| ==> xs[i] in ys
    ensures IdsIn(xs, n)
  {
    forall i | 0 <= i < |xs|
      ensures 1 <= xs[i] <= n
    {
      assert xs[i] in ys;
      var j :| 0 <= j < |ys| && ys[j] == xs[i];
    }
  }

  /** The candidates, as positions, in the order the ordering lists them:
      exactly the window positions whose description is not empty. */
  lemma CandidatePositions(blank: seq<bool>, picks: seq<int>, ids: seq<int>)
    requires Distinct(picks) && forall i :: 0 <= i < |picks| ==> picks[i] in CandIds(blank)
    requires ids == picks + Unpicked(CandIds(blank), picks)
    ensures IdsIn(ids, |blank|) && Distinct(Positions(ids))
    ensures forall p: nat :: p in Positions(ids) <==> p < |blank| && !blank[p]
  {
    var cands := CandIds(blank);
    PicksThenRest(cands, picks, ids, |blank|);
    PositionsDistinct(ids);
    forall p: nat
      ensures p in Positions(ids) <==> p < |blank| && !blank[p]
    {
      assert p in Positions(ids) <==> p + 1 in ids;
      assert p + 1 in ids <==> p + 1 in cands;
    }
  }

  /** After a successful judge call the ordering lists every position of
      `hits` exactly once: it is a permutation of the input. */
  lemma OrderingPermutation(blank: seq<bool>, n: nat, ranked: seq<Option<int>>)
    requires |blank| <= n
    ensures var ps := Ordering(blank, n, ranked);
            Distinct(ps) && |ps| == n && forall p: nat :: p in ps <==> p < n
  {
    var cands := CandIds(blank);
    var picks := Picks(ranked, cands);
    var ids := picks + Unpicked(cands, picks);
    CandidatePositions(blank, picks, ids);
    var a, b, c := Positions(ids), SkippedPos(blank), Range(|blank|, n);
    RangeDistinct(|blank|, n);
    DistinctAppend(a, b);
    DistinctAppend(a + b, c);
    var ps := a + b + c;
    assert ps == Ordering(blank, n, ranked);
    DistinctRangeCard(ps, n);
  }

  lemma ProjectAppend(hits: seq<Hit>, a: seq<nat>, b: seq<nat>)
    requires forall i :: 0 <= i < |a| ==> a[i] < |hits|
    requires forall i :: 0 <= i < |b| ==> b[i] < |hits|
    ensures Project(hits, a + b) == Project(hits, a) + Project(hits, b)
  {
  }

  lemma ProjectRange(hits: seq<Hit>, w: nat)
    requires w <= |hits|
    ensures Project(hits, Range(w, |hits|)) == hits[w..]
  {
  }

  /** What the first loop has built after describing the hits whose
      emptiness is recorded in `blank`. */
  ghost predicate CollectOk(hits: seq<Hit>, blank: seq<bool>, ids: seq<int>, idToHit: map<int, Hit>,
                            skipped: seq<Hit>)
  {
    |blank| <= |hits| && ids == CandIds(blank) && skipped == Project(hits, SkippedPos(blank)) &&
    (forall x :: x in idToHit <==> x in ids) &&
    (forall x :: x in idToHit ==> 1 <= x <= |blank| && idToHit[x] == hits[x - 1])
  }

  lemma CollectSkip(hits: seq<Hit>, blank: seq<bool>, ids: seq<int>, idToHit: map<int, Hit>, skipped: seq<Hit>)
    requires CollectOk(hits, blank, ids, idToHit, skipped) && |blank| < |hits|
    ensures CollectOk(hits, blank + [true], ids, idToHit, skipped + [hits[|blank|]])
  {
    assert (blank + [true])[..|blank|] == blank;
    ProjectAppend(hits, SkippedPos(blank), [|blank|]);
  }

  lemma CollectKeep(hits: seq<Hit>, blank: seq<bool>, ids: seq<int>, idToHit: map<int, Hit>, skipped: seq<Hit>)
    requires CollectOk(hits, blank, ids, idToHit, skipped) && |blank| < |hits|
    ensures CollectOk(hits, blank + [false], ids + [|blank| + 1], idToHit[|blank| + 1 := hits[|blank|]], skipped)
  {
    assert (blank + [false])[..|blank|] == blank;
  }

  /** The first loop of `rerank_hits`: describe each hit of the window, keep
      the described ones as candidates under their 1-based id and set the
      others aside. */
  method CollectCandidates(hits: seq<Hit>, w: nat, maxTokens: int, tok: Tokenizer)
    returns (ids: seq<int>, idToHit: map<int, Hit>, skipped: seq<Hit>)
    requires w <= |hits|
    ensures ids == CandIds(Blanks(hits, w, maxTokens, tok))
    ensures skipped == Project(hits, SkippedPos(Blanks(hits, w, maxTokens, tok)))
    ensures idToHit.Keys == Elements(ids)
    ensures forall x :: x in idToHit ==> 1 <= x <= w && idToHit[x] == hits[x - 1]
  {
    ids, idToHit, skipped := [], map[], [];
    ghost var blank: seq<bool> := [];
    for i := 0 to w
      invariant blank == Blanks(hits, w, maxTokens, tok)[..i]
      invariant CollectOk(hits, blank, ids, idToHit, skipped)
    {
      var content := CandidateContent(hits[i], maxTokens, tok);
      PrefixStep(Blanks(hits, w, maxTokens, tok), i, content == "");
      if content == "" {
        CollectSkip(hits, blank, ids, idToHit, skipped);
        skipped := skipped + [hits[i]];
      } else {
        CollectKeep(hits, blank, ids, idToHit, skipped);
        ids := ids + [i + 1];
        idToHit := idToHit[i + 1 := hits[i]];
      }
      blank := blank + [content == ""];
    }
    assert blank == Blanks(hits, w, maxTokens, tok);
    assert idToHit.Keys == Elements(ids);
  }

  /** One more judge id extends the picks exactly when it is a candidate not
      picked before. */
  lemma PicksSnoc(ranked: seq<Option<int>>, c: Option<int>, cands: seq<int>)
    ensures Picks(ranked + [c], cands) ==
            if c.Some? && c.value in cands && c.value !in Picks(ranked, cands)
            then Picks(ranked, cands) + [c.value] else Picks(ranked, cands)
  {
    var v := ValidIds(ranked, cands);
    assert (ranked + [c])[..|ranked|] == ranked;
    if c.Some? && c.value in cands {
      assert ValidIds(ranked + [c], cands) == v + [c.value];
      DedupSnoc(v, c.value);
    } else {
      assert ValidIds(ranked + [c], cands) == v;
    }
  }

  /** The state of the second loop after `ranked[..i]`. */
  ghost predicate TakeOk(ranked: seq<Option<int>>, i: nat, ids: seq<int>, picks: seq<int>, seen: set<int>)
    requires i <= |ranked|
  {
    picks == Picks(ranked[..i], ids) && seen == Elements(picks)
  }

  lemma TakeSkip(ranked: seq<Option<int>>, i: nat, ids: seq<int>, picks: seq<int>, seen: set<int>)
    requires i < |ranked| && TakeOk(ranked, i, ids, picks, seen)
    requires ranked[i].None? || ranked[i].value in seen || ranked[i].value !in ids
    ensures TakeOk(ranked, i + 1, ids, picks, seen)
  {
    assert ranked[..i + 1] == ranked[..i] + [ranked[i]];
    PicksSnoc(ranked[..i], ranked[i], ids);
  }

  lemma TakeKeep(ranked: seq<Option<int>>, i: nat, ids: seq<int>, picks: seq<int>, seen: set<int>)
    requires i < |ranked| && TakeOk(ranked, i, ids, picks, seen)
    requires ranked[i].Some? && ranked[i].value !in seen && ranked[i].value in ids
    ensures TakeOk(ranked, i + 1, ids, picks + [ranked[i].value], seen + {ranked[i].value})
  {
    assert ranked[..i + 1] == ranked[..i] + [ranked[i]];
    PicksSnoc(ranked[..i], ranked[i], ids);
  }

  /** The second loop: the judge's ids in its order, skipping None, repeats
      and ids that are not candidates. */
  method TakePicks(ranked: seq<Option<int>>, ids: seq<int>, idToHit: map<int, Hit>, ghost hits: seq<Hit>)
    returns (seen: set<int>, ordered: seq<Hit>)
    requires idToHit.Keys == Elements(ids)
    requires forall x :: x in idToHit ==> 1 <= x <= |hits| && idToHit[x] == hits[x - 1]
    requires forall x :: x in ids ==> 1 <= x <= |hits|
    ensures seen == Elements(Picks(ranked, ids))
    ensures ordered == Project(hits, Positions(Picks(ranked, ids)))
  {
    seen, ordered := {}, [];
    ghost var picks: seq<int> := [];
    for i := 0 to |ranked|
      invariant TakeOk(ranked, i, ids, picks, seen)
      invariant ordered == Project(hits, Positions(picks))
    {
      var cid := ranked[i];
      if cid.None? || cid.value in seen || cid.value !in idToHit {
        TakeSkip(ranked, i, ids, picks, seen);
      } else {
        TakeKeep(ranked, i, ids, picks, seen);
        ProjectAppend(hits, Positions(picks), [cid.value - 1]);
        seen := seen + {cid.value};
        ordered := ordered + [idToHit[cid.value]];
        picks := picks + [cid.value];
      }
    }
    assert ranked[..|ranked|] == ranked;
  }

  lemma UnpickedIn(ids: seq<int>, picks: seq<int>, n: nat)
    requires IdsIn(ids, n)
    ensures IdsIn(Unpicked(ids, picks), n)
  {
    var u := Unpicked(ids, picks);
    assert forall i :: 0 <= i < |u| ==> u[i] in u;
  }

  lemma UnpickedSnoc(ids: seq<int>, j: nat, picks: seq<int>)
    requires j < |ids|
    ensures Unpicked(ids[..j + 1], picks) == Unpicked(ids[..j], picks) + (if ids[j] !in picks then [ids[j]] else [])
  {
    assert ids[..j + 1][..j] == ids[..j];
  }

  lemma ProjectSnoc(hits: seq<Hit>, before: seq<int>, x: int)
    requires IdsIn(before, |hits|) && 1 <= x <= |hits|
    ensures IdsIn(before + [x], |hits|)
    ensures Project(hits, Positions(before + [x])) == Project(hits, Positions(before)) + [hits[x - 1]]
  {
    ProjectAppend(hits, Positions(before), [x - 1]);
    assert Positions(before + [x]) == Positions(before) + [x - 1];
  }

  /** One pass of the third loop: append the hit of candidate `x` unless
      the judge picked it. */
  method AppendIfUnseen(x: int, seen: set<int>, idToHit: map<int, Hit>, r: seq<Hit>,
                        ghost hits: seq<Hit>, ghost order: seq<int>)
    returns (r': seq<Hit>, ghost order': seq<int>)
    requires x in idToHit && 1 <= x <= |hits| && idToHit[x] == hits[x - 1]
    requires IdsIn(order, |hits|) && r == Project(hits, Positions(order))
    ensures order' == if x !in seen then order + [x] else order
    ensures IdsIn(order', |hits|) && r' == Project(hits, Positions(order'))
  {
    r', order' := r, order;
    if x !in seen {
      ProjectSnoc(hits, order, x);
      r' := r + [idToHit[x]];
      order' := order + [x];
    }
  }

  /** The third loop: the candidates the judge did not pick, in id order. */
  method AppendUnpicked(ids: seq<int>, seen: set<int>, idToHit: map<int, Hit>, ordered: seq<Hit>,
                        ghost hits: seq<Hit>, ghost picks: seq<int>)
    returns (r: seq<Hit>)
    requires idToHit.Keys == Elements(ids)
    requires forall x :: x in idToHit ==> 1 <= x <= |hits| && idToHit[x] == hits[x - 1]
    requires seen == Elements(picks)
    requires IdsIn(picks, |hits|)
    requires ordered == Project(hits, Positions(picks))
    ensures IdsIn(picks + Unpicked(ids, picks), |hits|)
    ensures r == Project(hits, Positions(picks + Unpicked(ids, picks)))
  {
    r := ordered;
    assert forall x :: x in ids ==> x in idToHit;
    assert IdsIn(ids, |hits|) by {
      assert forall i :: 0 <= i < |ids| ==> ids[i] in idToHit;
    }
    ghost var order := picks;
    assert Unpicked(ids[..0], picks) == [];
    for j := 0 to |ids|
      invariant order == picks + Unpicked(ids[..j], picks)
      invariant IdsIn(order, |hits|)
      invariant r == Project(hits, Positions(order))
    {
      UnpickedSnoc(ids, j, picks);
      assert ids[j] in idToHit;
      r, order := AppendIfUnseen(ids[j], seen, idToHit, r, hits, order);
    }
    assert ids[..|ids|] == ids;
  }

  lemma ProjectThree(hits: seq<Hit>, a: seq<nat>, b: seq<nat>, w: nat)
    requires w <= |hits|
    requires forall i :: 0 <= i < |a| ==> a[i] < |hits|
    requires forall i :: 0 <= i < |b| ==> b[i] < |hits|
    ensures forall i :: 0 <= i < |a + b + Range(w, |hits|)| ==> (a + b + Range(w, |hits|))[i] < |hits|
    ensures Project(hits, a + b + Range(w, |hits|)) == Project(hits, a) + Project(hits, b) + hits[w..]
  {
    var c := Range(w, |hits|);
    ProjectAppend(hits, a, b);
    ProjectAppend(hits, a + b, c);
    ProjectRange(hits, w);
  }

  lemma PositionsIn(ids: seq<int>, n: nat)
    requires IdsIn(ids, n)
    ensures forall i :: 0 <= i < |Positions(ids)| ==> Positions(ids)[i] < n
  {
  }

  /** The three pieces of the ordering. */
  lemma OrderingSplit(blank: seq<bool>, n: nat, ranked: seq<Option<int>>, ids: seq<int>)
    requires |blank| <= n
    requires ids == Picks(ranked, CandIds(blank)) + Unpicked(CandIds(blank), Picks(ranked, CandIds(blank)))
    ensures IdsIn(ids, |blank|)
    ensures Ordering(blank, n, ranked) == Positions(ids) + SkippedPos(blank) + Range(|blank|, n)
  {
    CandidatePositions(blank, Picks(ranked, CandIds(blank)), ids);
  }

  /** The hits in the order `Ordering` lists them, piece by piece. */
  lemma OrderingProject(hits: seq<Hit>, blank: seq<bool>, ranked: seq<Option<int>>)
    requires |blank| <= |hits|
    ensures var cands := CandIds(blank);
            var picks := Picks(ranked, cands);
            var ids := picks + Unpicked(cands, picks);
            IdsIn(ids, |hits|) &&
            Project(hits, Ordering(blank, |hits|, ranked)) ==
              Project(hits, Positions(ids)) + Project(hits, SkippedPos(blank)) + hits[|blank|..]
  {
    var cands := CandIds(blank);
    var picks := Picks(ranked, cands);
    var ids := picks + Unpicked(cands, picks);
    OrderingSplit(blank, |hits|, ranked, ids);
    PositionsIn(ids, |hits|);
    ProjectThree(hits, Positions(ids), SkippedPos(blank), |blank|);
  }

  /** The skipped hits, then the hits beyond the window, each list added
      when it is not empty. */
  method ExtendRest(ordered: seq<Hit>, skipped: seq<Hit>, remaining: seq<Hit>) returns (r: seq<Hit>)
    ensures r == ordered + skipped + remaining
  {
    r := ordered;
    if |skipped| > 0 {
      r := r + skipped;
    }
    if |remaining| > 0 {
      r := r + remaining;
    }
  }

  /** The part of `rerank_hits` after the judge replied: its picks, then
      the rest of the candidates, the skipped hits and the hits beyond the
      window. `ok` is false when the judge picked nothing usable. */
  method JudgedOrder(hits: seq<Hit>, ids: seq<int>, idToHit: map<int, Hit>, skipped: seq<Hit>,
                     remaining: seq<Hit>, ranked: seq<Option<int>>, ghost blank: seq<bool>)
    returns (ok: bool, ordered: seq<Hit>)
    requires |blank| <= |hits|
    requires ids == CandIds(blank) && idToHit.Keys == Elements(ids)
    requires forall x :: x in idToHit ==> 1 <= x <= |hits| && idToHit[x] == hits[x - 1]
    requires skipped == Project(hits, SkippedPos(blank)) && remaining == hits[|blank|..]
    ensures ok <==> |Picks(ranked, ids)| > 0
    ensures ok ==> ordered == Project(hits, Ordering(blank, |hits|, ranked))
  {
    var seen;
    seen, ordered := TakePicks(ranked, ids, idToHit, hits);
    ghost var picks := Picks(ranked, ids);
    if |ordered| == 0 {
      return false, ordered;
    }
    assert IdsIn(picks, |hits|) by {
      assert forall i :: 0 <= i < |picks| ==> picks[i] in ids;
    }
    ordered := AppendUnpicked(ids, seen, idToHit, ordered, hits, picks);
    ordered := ExtendRest(ordered, skipped, remaining);
    OrderingProject(hits, blank, ranked);
    ok := true;
  }

  /** `rerank_hits`, loop by loop. */
  method RerankHits(hits: seq<Hit>, topk: Option<int>, question: Option<string>, maxCandidates: Option<int>,
                    cfg: RerankSection, reply: JudgeReply, tok: Tokenizer)
    returns (r: seq<Hit>)
    ensures r == Reranked(hits, topk, question, maxCandidates, cfg, reply, tok)
  {
    if |hits| == 0 || question.None? || question.value == "" {
      return hits;
    }
    var k := Min(OrElse(topk, cfg.topk.GetOr(|hits|)), |hits|);
    var mc := Min(OrElse(maxCandidates, cfg.maxCandidates.GetOr(5)), |hits|);
    var maxTokens := cfg.maxTokens.GetOr(128);
    var w := SliceIndex(|hits|, mc);
    var ids, idToHit, skipped := CollectCandidates(hits, w, maxTokens, tok);
    var remaining := PyDrop(hits, mc);
    if |ids| == 0 || reply.Failed? {
      return PyTake(hits, k);
    }
    var ranked := reply.rankedIds.GetOr([]);
    var ok, ordered := JudgedOrder(hits, ids, idToHit, skipped, remaining, ranked, Blanks(hits, w, maxTokens, tok));
    if !ok {
      return PyTake(hits, k);
    }
    r := PyTake(ordered, k);
  }

  lemma DistinctRemove(ps: seq<nat>, j: nat)
    requires Distinct(ps) && j < |ps|
    ensures Distinct(ps[..j] + ps[j + 1..])
    ensures forall x :: x in ps[..j] + ps[j + 1..] <==> x in ps && x != ps[j]
  {
    var r := ps[..j] + ps[j + 1..];
    assert forall i :: 0 <= i < |r| ==> r[i] == if i < j then ps[i] else ps[i + 1];
    forall x | x in ps && x != ps[j]
      ensures x in r
    {
      var i :| 0 <= i < |ps| && ps[i] == x;
      if i < j {
        assert r[i] == x;
      } else {
        assert r[i - 1] == x;
      }
    }
  }

  /** Taking the largest position out of a rearrangement of `0 .. n - 1`
      leaves a rearrangement of `0 .. n - 2`. */
  lemma PermRemove(ps: seq<nat>, j: nat)
    requires Distinct(ps) && j < |ps| && ps[j] == |ps| - 1
    requires forall i :: 0 <= i < |ps| ==> ps[i] < |ps|
    requires forall p: nat :: p < |ps| ==> p in ps
    ensures var rest := ps[..j] + ps[j + 1..];
            Distinct(rest) && |rest| == |ps| - 1 &&
            (forall i :: 0 <= i < |rest| ==> rest[i] < |rest|) &&
            forall p: nat :: p < |rest| ==> p in rest
  {
    var rest := ps[..j] + ps[j + 1..];
    DistinctRemove(ps, j);
    forall i | 0 <= i < |rest|
      ensures rest[i] < |rest|
    {
      assert rest[i] in rest;
    }
    forall p: nat | p < |rest|
      ensures p in rest
    {
      assert p in ps && p != ps[j];
    }
  }

  /** Taking one position out of the projection takes its hit out. */
  lemma ProjectRemove(hits: seq<Hit>, ps: seq<nat>, j: nat)
    requires j < |ps| && forall i :: 0 <= i < |ps| ==> ps[i] < |hits|
    ensures var rest := ps[..j] + ps[j + 1..];
            (forall i :: 0 <= i < |rest| ==> rest[i] < |hits|) &&
            multiset(Project(hits, ps)) == multiset(Project(hits, rest)) + multiset{hits[ps[j]]}
  {
    var a, b := ps[..j], ps[j + 1..];
    assert ps == a + [ps[j]] + b;
    ProjectAppend(hits, a + [ps[j]], b);
    ProjectAppend(hits, a, [ps[j]]);
    ProjectAppend(hits, a, b);
  }

  /** Rearranging all positions of `hits` rearranges `hits`. */
  lemma {:induction false} ProjectPermutation(hits: seq<Hit>, ps: seq<nat>)
    requires Distinct(ps) && |ps| == |hits|
    requires forall i :: 0 <= i < |ps| ==> ps[i] < |hits|
    requires forall p: nat :: p < |hits| ==> p in ps
    ensures multiset(Project(hits, ps)) == multiset(hits)
  {
    if |hits| > 0 {
      var m := |hits| - 1;
      var j := FirstIndex(ps, m);
      var rest := ps[..j] + ps[j + 1..];
      PermRemove(ps, j);
      ProjectRemove(hits, ps, j);
      var front := hits[..m];
      ProjectPermutation(front, rest);
      assert Project(hits, rest) == Project(front, rest);
      assert hits == front + [hits[m]];
    }
  }

  lemma {:induction false} ValidIdsMembers(ranked: seq<Option<int>>, cands: seq<int>)
    ensures forall x :: x in ValidIds(ranked, cands) <==> x in cands && Some(x) in ranked
  {
    if |ranked| > 0 {
      var u := ranked[..|ranked| - 1];
      ValidIdsMembers(u, cands);
      assert ranked == u + [ranked[|ranked| - 1]];
    }
  }

  /** The valid ids keep the judge's order of first mention. */
  lemma {:induction false} ValidIdsOrder(ranked: seq<Option<int>>, cands: seq<int>, x: int, y: int)
    requires x in ValidIds(ranked, cands) && y in ValidIds(ranked, cands)
    ensures Some(x) in ranked && Some(y) in ranked
    ensures FirstIndex(ValidIds(ranked, cands), x) < FirstIndex(ValidIds(ranked, cands), y) <==>
            FirstIndex(ranked, Some(x)) < FirstIndex(ranked, Some(y))
  {
    ValidIdsMembers(ranked, cands);
    var u, c := ranked[..|ranked| - 1], ranked[|ranked| - 1];
    assert ranked == u + [c];
    var v := ValidIds(u, cands);
    ValidIdsMembers(u, cands);
    var tail := if c.Some? && c.value in cands then [c.value] else [];
    assert ValidIds(ranked, cands) == v + tail;
    if x in v {
      FirstIndexPrefix(v, tail, x);
      FirstIndexPrefix(u, [c], Some(x));
    }
    if y in v {
      FirstIndexPrefix(v, tail, y);
      FirstIndexPrefix(u, [c], Some(y));
    }
    if x in v && y in v {
      ValidIdsOrder(u, cands, x, y);
    } else if x in v {
      FirstIndexLast(v, y);
      FirstIndexLast(u, Some(y));
    } else if y in v {
      FirstIndexLast(v, x);
      FirstIndexLast(u, Some(x));
    }
  }

  /** The picks are the valid ids the judge returned, each once, in the
      order the judge first mentioned them. */
  lemma PicksInJudgeOrder(ranked: seq<Option<int>>, cands: seq<int>)
    ensures forall x :: x in Picks(ranked, cands) <==> x in cands && Some(x) in ranked
    ensures var picks := Picks(ranked, cands);
            forall i, j :: 0 <= i < j < |picks| ==>
              Some(picks[i]) in ranked && Some(picks[j]) in ranked &&
              FirstIndex(ranked, Some(picks[i])) < FirstIndex(ranked, Some(picks[j]))
  {
    var v := ValidIds(ranked, cands);
    var picks := Picks(ranked, cands);
    ValidIdsMembers(ranked, cands);
    DedupOrder(v);
    forall i, j | 0 <= i < j < |picks|
      ensures Some(picks[i]) in ranked && Some(picks[j]) in ranked &&
              FirstIndex(ranked, Some(picks[i])) < FirstIndex(ranked, Some(picks[j]))
    {
      ValidIdsOrder(ranked, cands, picks[i], picks[j]);
    }
  }

  lemma TakeMultiset<T>(s: seq<T>, k: int)
    ensures multiset(PyTake(s, k)) <= multiset(s)
  {
    PyTakeDrop(s, k);
    assert multiset(s) == multiset(PyTake(s, k)) + multiset(PyDrop(s, k));
  }

  /** After a successful judge call the hits are rearranged, none lost. */
  lemma OrderedPermutation(hits: seq<Hit>, blank: seq<bool>, ranked: seq<Option<int>>)
    requires |blank| <= |hits|
    ensures var x := Project(hits, Ordering(blank, |hits|, ranked));
            |x| == |hits| && multiset(x) == multiset(hits)
  {
    var ps := Ordering(blank, |hits|, ranked);
    OrderingPermutation(blank, |hits|, ranked);
    ProjectPermutation(hits, ps);
  }

  /** The arrangement is a rearrangement of the input. */
  lemma ArrangedPermutation(hits: seq<Hit>, maxCandidates: Option<int>, cfg: RerankSection, reply: JudgeReply,
                            tok: Tokenizer)
    ensures var x := Arranged(hits, maxCandidates, cfg, reply, tok);
            |x| == |hits| && multiset(x) == multiset(hits)
  {
    var w := SliceIndex(|hits|, Min(OrElse(maxCandidates, cfg.maxCandidates.GetOr(5)), |hits|));
    var blank := Blanks(hits, w, cfg.maxTokens.GetOr(128), tok);
    if reply.Replied? {
      OrderedPermutation(hits, blank, reply.rankedIds.GetOr([]));
    }
  }

  /** Reranking only reorders and cuts: the result holds no hit more often
      than the input, has `topk` entries (as Python slices it), and is a
      rearrangement of the whole input when `topk` does not cut. Without a
      question, or without hits, the input comes back unchanged. */
  lemma RerankedReorders(hits: seq<Hit>, topk: Option<int>, question: Option<string>, maxCandidates: Option<int>,
                         cfg: RerankSection, reply: JudgeReply, tok: Tokenizer)
    ensures var r := Reranked(hits, topk, question, maxCandidates, cfg, reply, tok);
            multiset(r) <= multiset(hits) &&
            (|hits| == 0 || question.None? || question.value == "" ==> r == hits)
    ensures |hits| > 0 && question.Some? && question.value != "" ==>
            var r := Reranked(hits, topk, question, maxCandidates, cfg, reply, tok);
            var k := Min(OrElse(topk, cfg.topk.GetOr(|hits|)), |hits|);
            |r| == SliceIndex(|hits|, k) && (k == |hits| ==> multiset(r) == multiset(hits))
  {
    if |hits| > 0 && question.Some? && question.value != "" {
      var k := Min(OrElse(topk, cfg.topk.GetOr(|hits|)), |hits|);
      var x := Arranged(hits, maxCandidates, cfg, reply, tok);
      ArrangedPermutation(hits, maxCandidates, cfg, reply, tok);
      TakeMultiset(x, k);
      if k == |hits| {
        assert PyTake(x, k) == x;
      }
    }
  }

  /** Where the ordering puts things: the picks first, in the judge's order,
      and every position beyond the window at its own place. */
  lemma OrderingLayout(blank: seq<bool>, n: nat, ranked: seq<Option<int>>)
    requires |blank| <= n
    ensures var ps := Ordering(blank, n, ranked);
            var picks := Picks(ranked, CandIds(blank));
            |ps| == n && |picks| <= n &&
            (forall i :: 0 <= i < |picks| ==> ps[i] == picks[i] - 1) &&
            (forall i :: |blank| <= i < n ==> ps[i] == i)
  {
    var cands := CandIds(blank);
    var picks := Picks(ranked, cands);
    var ids := picks + Unpicked(cands, picks);
    OrderingSplit(blank, n, ranked, ids);
    OrderingPermutation(blank, n, ranked);
    var a, b, c := Positions(ids), SkippedPos(blank), Range(|blank|, n);
    assert |a| + |b| == |blank|;
    forall i | 0 <= i < |picks|
      ensures Ordering(blank, n, ranked)[i] == picks[i] - 1
    {
      assert a[i] == ids[i] - 1;
    }
    forall i | |blank| <= i < n
      ensures Ordering(blank, n, ranked)[i] == i
    {
      assert c[i - |blank|] == i;
    }
  }

  /** `x` is a rearrangement of `hits` that starts with the hits of
      `picks` (1-based ids, in that order) and keeps every hit from
      position `w` on in its place. */
  ghost predicate PicksLeadTailStays(x: seq<Hit>, hits: seq<Hit>, picks: seq<int>, w: nat) {
    |x| == |hits| &&
    (forall i :: 0 <= i < |picks| ==> 1 <= picks[i] <= |hits| && i < |x| && x[i] == hits[picks[i] - 1]) &&
    (forall i :: w <= i < |hits| ==> x[i] == hits[i])
  }

  lemma ProjectLayout(hits: seq<Hit>, ps: seq<nat>, picks: seq<int>, w: nat)
    requires |ps| == |hits| && |picks| <= |ps|
    requires forall i :: 0 <= i < |ps| ==> ps[i] < |hits|
    requires forall i :: 0 <= i < |picks| ==> ps[i] == picks[i] - 1
    requires forall i :: w <= i < |hits| ==> ps[i] == i
    ensures PicksLeadTailStays(Project(hits, ps), hits, picks, w)
  {
  }

  /** Without a usable pick the arrangement is the input order. */
  lemma ArrangedUnjudged(hits: seq<Hit>, maxCandidates: Option<int>, cfg: RerankSection, reply: JudgeReply,
                         tok: Tokenizer)
    requires reply.Replied?
    requires var w := SliceIndex(|hits|, Min(OrElse(maxCandidates, cfg.maxCandidates.GetOr(5)), |hits|));
             |Picks(reply.rankedIds.GetOr([]), CandIds(Blanks(hits, w, cfg.maxTokens.GetOr(128), tok)))| == 0
    ensures Arranged(hits, maxCandidates, cfg, reply, tok) == hits
  {
  }

  /** With a usable pick the arrangement follows the ordering. */
  lemma ArrangedJudged(hits: seq<Hit>, maxCandidates: Option<int>, cfg: RerankSection, reply: JudgeReply,
                       tok: Tokenizer)
    requires reply.Replied?
    requires var w := SliceIndex(|hits|, Min(OrElse(maxCandidates, cfg.maxCandidates.GetOr(5)), |hits|));
             |Picks(reply.rankedIds.GetOr([]), CandIds(Blanks(hits, w, cfg.maxTokens.GetOr(128), tok)))| > 0
    ensures var w := SliceIndex(|hits|, Min(OrElse(maxCandidates, cfg.maxCandidates.GetOr(5)), |hits|));
            Arranged(hits, maxCandidates, cfg, reply, tok) ==
              Project(hits, Ordering(Blanks(hits, w, cfg.maxTokens.GetOr(128), tok), |hits|, reply.rankedIds.GetOr([])))
  {
    var w := SliceIndex(|hits|, Min(OrElse(maxCandidates, cfg.maxCandidates.GetOr(5)), |hits|));
    var cands := CandIds(Blanks(hits, w, cfg.maxTokens.GetOr(128), tok));
    var picks := Picks(reply.rankedIds.GetOr([]), cands);
    assert picks[0] in cands;
  }

  /** The judge's picks lead the arrangement, in its order (see
      `PicksInJudgeOrder`), and hits beyond the candidate window keep their
      places; the result of `rerank_hits` is a prefix of it. */
  lemma ArrangedLayout(hits: seq<Hit>, maxCandidates: Option<int>, cfg: RerankSection, reply: JudgeReply,
                       tok: Tokenizer)
    requires reply.Replied?
    ensures var w := SliceIndex(|hits|, Min(OrElse(maxCandidates, cfg.maxCandidates.GetOr(5)), |hits|));
            var picks := Picks(reply.rankedIds.GetOr([]), CandIds(Blanks(hits, w, cfg.maxTokens.GetOr(128), tok)));
            PicksLeadTailStays(Arranged(hits, maxCandidates, cfg, reply, tok), hits, picks, w)
  {
    var w := SliceIndex(|hits|, Min(OrElse(maxCandidates, cfg.maxCandidates.GetOr(5)), |hits|));
    var blank := Blanks(hits, w, cfg.maxTokens.GetOr(128), tok);
    var ranked := reply.rankedIds.GetOr([]);
    var picks := Picks(ranked, CandIds(blank));
    if |picks| == 0 {
      ArrangedUnjudged(hits, maxCandidates, cfg, reply, tok);
    } else {
      ArrangedJudged(hits, maxCandidates, cfg, reply, tok);
      OrderingLayout(blank, |hits|, ranked);
      ProjectLayout(hits, Ordering(blank, |hits|, ranked), picks, w);
    }
  }

  /** As written the judge call passes a `think` argument that the adapter
      does not accept, so it always raises and `rerank_hits` returns the
      first `topk` hits in their retrieved order. */
  lemma RerankedAsWritten(hits: seq<Hit>, topk: Option<int>, question: Option<string>, maxCandidates: Option<int>,
                          cfg: RerankSection, tok: Tokenizer)
    ensures var r := Reranked(hits, topk, question, maxCandidates, cfg, Failed, tok);
            && (|hits| == 0 || question.None? || question.value == "" ==> r == hits)
            && (|hits| > 0 && question.Some? && question.value != "" ==>
                  r == PyTake(hits, Min(OrElse(topk, cfg.topk.GetOr(|hits|)), |hits|)))
  {
  }
}
