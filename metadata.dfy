/** Chunk enrichment with model-written summaries and keywords: keyword
    normalisation (strip, drop blanks, case-insensitive deduplication that
    keeps the first spelling, cap) and the skip rules of `enrich_chunks`.
    The prompt renderer and the structured chat call are parameters. */
module Metadata {
  import opened Wrappers
  import opened Text
  import opened Lists
  import opened Chat

  // ---- `_normalize_keywords` ----

  /** `(item or "").strip()` */
  function Cleaned(item: Option<string>): string {
    Strip(item.GetOr(""))
  }

  /** The lower-cased forms of a list of keywords: the `seen` set. */
  function Keys(out: seq<string>): set<string> {
    set x | x in out :: Lower(x)
  }

  /** The key of every raw item, blank ones included, in input order. */
  function RawKeys(raw: seq<Option<string>>): (r: seq<string>)
    ensures |r| == |raw|
  {
    seq(|raw|, j requires 0 <= j < |raw| => Lower(Cleaned(raw[j])))
  }

  /** The non-blank cleaned items whose key has not occurred before, in
      order: what the loop collects when no cap stops it. */
  function Distinctive(raw: seq<Option<string>>): (r: seq<string>)
    ensures |r| <= |raw|
    ensures forall k :: 0 <= k < |r| ==> r[k] != "" && NoSpaceAround(r[k])
    ensures forall j, k :: 0 <= j < k < |r| ==> Lower(r[j]) != Lower(r[k])
  {
    if |raw| == 0 then []
    else
      var d := Distinctive(raw[..|raw| - 1]);
      var c := Cleaned(raw[|raw| - 1]);
      if c == "" || Lower(c) in Keys(d) then d else d + [c]
  }

  /** The loop stops once the output reaches `max_keywords`, and no earlier
      than after the first kept item. */
  function Cap(maxKeywords: int): nat {
    if maxKeywords >= 1 then maxKeywords else 1
  }

  /** What `_normalize_keywords(raw, max_keywords)` returns. */
  function NormalizedKeywords(raw: Option<seq<Option<string>>>, maxKeywords: int): (r: seq<string>)
    ensures |r| <= Cap(maxKeywords)
    ensures forall k :: 0 <= k < |r| ==> r[k] != "" && NoSpaceAround(r[k])
    ensures forall j, k :: 0 <= j < k < |r| ==> Lower(r[j]) != Lower(r[k])
  {
    PyTake(Distinctive(raw.GetOr([])), Cap(maxKeywords))
  }

  lemma KeywordSkip(raw: seq<Option<string>>, i: nat, out: seq<string>)
    requires i < |raw| && out == Distinctive(raw[..i])
    requires Cleaned(raw[i]) == "" || Lower(Cleaned(raw[i])) in Keys(out)
    ensures out == Distinctive(raw[..i + 1])
  {
    assert raw[..i + 1][..i] == raw[..i];
  }

  lemma KeywordKeep(raw: seq<Option<string>>, i: nat, out: seq<string>, seen: set<string>)
    requires i < |raw| && out == Distinctive(raw[..i]) && seen == Keys(out)
    requires Cleaned(raw[i]) != "" && Lower(Cleaned(raw[i])) !in seen
    ensures out + [Cleaned(raw[i])] == Distinctive(raw[..i + 1])
    ensures Keys(out + [Cleaned(raw[i])]) == seen + {Lower(Cleaned(raw[i]))}
  {
    assert raw[..i + 1][..i] == raw[..i];
  }

  /** Collecting fewer items gives a prefix of collecting all of them. */
  lemma {:induction false} DistinctivePrefix(raw: seq<Option<string>>, i: nat)
    requires i <= |raw|
    ensures |Distinctive(raw[..i])| <= |Distinctive(raw)|
    ensures Distinctive(raw[..i]) == Distinctive(raw)[..|Distinctive(raw[..i])|]
    decreases |raw|
  {
    if i < |raw| {
      var u := raw[..|raw| - 1];
      assert u[..i] == raw[..i];
      DistinctivePrefix(u, i);
    } else {
      assert raw[..i] == raw;
    }
  }

  /** The loop's two exits: the cap is reached after `i` items, or every item
      was read below the cap. */
  lemma KeywordsCapped(raw: Option<seq<Option<string>>>, i: nat, out: seq<string>, maxKeywords: int)
    requires i <= |raw.GetOr([])| && out == Distinctive(raw.GetOr([])[..i])
    requires |out| == Cap(maxKeywords)
    ensures out == NormalizedKeywords(raw, maxKeywords)
  {
    DistinctivePrefix(raw.GetOr([]), i);
    assert SliceIndex(|Distinctive(raw.GetOr([]))|, Cap(maxKeywords)) == |out|;
  }

  lemma KeywordsAll(raw: Option<seq<Option<string>>>, out: seq<string>, maxKeywords: int)
    requires out == Distinctive(raw.GetOr([])[..|raw.GetOr([])|]) && |out| < Cap(maxKeywords)
    ensures out == NormalizedKeywords(raw, maxKeywords)
  {
    assert raw.GetOr([])[..|raw.GetOr([])|] == raw.GetOr([]);
  }

  /** One iteration of the loop: the item is dropped when blank or already
      seen, and kept in its stripped spelling otherwise. */
  method KeywordStep(items: seq<Option<string>>, i: nat, out: seq<string>, seen: set<string>)
    returns (out': seq<string>, seen': set<string>, kept: bool)
    requires i < |items| && out == Distinctive(items[..i]) && seen == Keys(out)
    ensures out' == Distinctive(items[..i + 1]) && seen' == Keys(out')
    ensures |out'| == if kept then |out| + 1 else |out|
  {
    var cleaned := Cleaned(items[i]);
    if cleaned == "" || Lower(cleaned) in seen {
      KeywordSkip(items, i, out);
      out', seen', kept := out, seen, false;
    } else {
      KeywordKeep(items, i, out, seen);
      out', seen', kept := out + [cleaned], seen + {Lower(cleaned)}, true;
    }
  }

  /** `_normalize_keywords(raw, max_keywords)` */
  method NormalizeKeywords(raw: Option<seq<Option<string>>>, maxKeywords: int) returns (out: seq<string>)
    ensures out == NormalizedKeywords(raw, maxKeywords)
  {
    var items := raw.GetOr([]);
    var seen: set<string> := {};
    out := [];
    var i := 0;
    while i < |items|
      invariant i <= |items|
      invariant out == Distinctive(items[..i]) && seen == Keys(out)
      invariant |out| < Cap(maxKeywords)
    {
      var kept;
      out, seen, kept := KeywordStep(items, i, out, seen);
      if kept && |out| >= maxKeywords {
        KeywordsCapped(raw, i + 1, out, maxKeywords);
        return;
      }
      i := i + 1;
    }
    KeywordsAll(raw, out, maxKeywords);
  }

  /** A raw item is kept exactly when it is the first non-blank item with its
      lower-cased key, and then in its first spelling. */
  predicate FirstSpelling(raw: seq<Option<string>>, c: string) {
    c != "" && Lower(c) in RawKeys(raw) && c == Cleaned(raw[FirstIndex(RawKeys(raw), Lower(c))])
  }

  lemma RawKeysSnoc(u: seq<Option<string>>, x: Option<string>)
    ensures RawKeys(u + [x]) == RawKeys(u) + [Lower(Cleaned(x))]
  {
  }

  /** A key first seen before the new item keeps its first occurrence. */
  lemma FirstSpellingSnoc(u: seq<Option<string>>, x: Option<string>, c: string)
    requires Lower(c) in RawKeys(u)
    ensures FirstSpelling(u + [x], c) == FirstSpelling(u, c)
  {
    RawKeysSnoc(u, x);
    FirstIndexPrefix(RawKeys(u), [Lower(Cleaned(x))], Lower(c));
    assert (u + [x])[FirstIndex(RawKeys(u), Lower(c))] == u[FirstIndex(RawKeys(u), Lower(c))];
  }

  /** A key never seen before is first seen at the new item. */
  lemma FirstSpellingNew(u: seq<Option<string>>, x: Option<string>, c: string)
    requires Lower(c) !in RawKeys(u)
    ensures FirstSpelling(u + [x], c) <==> c != "" && c == Cleaned(x)
  {
    RawKeysSnoc(u, x);
    if Lower(c) == Lower(Cleaned(x)) {
      FirstIndexLast(RawKeys(u), Lower(c));
      assert (u + [x])[|u|] == x;
    } else {
      assert Lower(c) !in RawKeys(u + [x]);
    }
  }

  /** The collected keywords are exactly the first spellings of the
      distinct non-blank keys. */
  lemma {:induction false} DistinctiveMembers(raw: seq<Option<string>>)
    ensures forall c :: c in Distinctive(raw) <==> FirstSpelling(raw, c)
    decreases |raw|
  {
    if |raw| > 0 {
      var u, x := raw[..|raw| - 1], raw[|raw| - 1];
      assert raw == u + [x];
      DistinctiveMembers(u);
      var d, c0 := Distinctive(u), Cleaned(x);
      forall c
        ensures c in Distinctive(raw) <==> FirstSpelling(raw, c)
      {
        if Lower(c) in RawKeys(u) {
          FirstSpellingSnoc(u, x, c);
          if c == c0 && c0 != "" && Lower(c0) !in Keys(d) {
            KeyOfFirstSpelling(u, c);
          }
        } else {
          FirstSpellingNew(u, x, c);
          assert !FirstSpelling(u, c);
        }
      }
    }
  }

  /** A key that occurs among the raw items is the key of a collected keyword. */
  lemma KeyOfFirstSpelling(u: seq<Option<string>>, c: string)
    requires forall e :: e in Distinctive(u) <==> FirstSpelling(u, e)
    requires c != "" && Lower(c) in RawKeys(u)
    ensures Lower(c) in Keys(Distinctive(u))
  {
    var j := FirstIndex(RawKeys(u), Lower(c));
    var e := Cleaned(u[j]);
    assert Lower(e) == Lower(c);
    assert |e| == |c|;
    assert FirstSpelling(u, e);
  }

  /** Every keyword's key occurs in `keys`, and the keywords are listed in
      the order of their keys' first occurrences. */
  predicate KeyOrdered(keys: seq<string>, d: seq<string>) {
    (forall k :: 0 <= k < |d| ==> Lower(d[k]) in keys)
    && forall j, k :: 0 <= j < k < |d| ==> FirstIndex(keys, Lower(d[j])) < FirstIndex(keys, Lower(d[k]))
  }

  lemma KeyOrderedSnoc(keys: seq<string>, d: seq<string>, y: string)
    requires KeyOrdered(keys, d)
    ensures KeyOrdered(keys + [y], d)
  {
    forall k | 0 <= k < |d|
      ensures FirstIndex(keys + [y], Lower(d[k])) == FirstIndex(keys, Lower(d[k]))
    {
      FirstIndexPrefix(keys, [y], Lower(d[k]));
    }
  }

  lemma KeyOrderedNew(keys: seq<string>, d: seq<string>, c: string)
    requires KeyOrdered(keys, d) && Lower(c) !in keys
    ensures KeyOrdered(keys + [Lower(c)], d + [c])
  {
    KeyOrderedSnoc(keys, d, Lower(c));
    FirstIndexLast(keys, Lower(c));
  }

  /** The collected keywords keep the order in which their keys first occur. */
  lemma {:induction false} DistinctiveOrder(raw: seq<Option<string>>)
    ensures KeyOrdered(RawKeys(raw), Distinctive(raw))
    decreases |raw|
  {
    if |raw| > 0 {
      var u, x := raw[..|raw| - 1], raw[|raw| - 1];
      assert raw == u + [x];
      DistinctiveOrder(u);
      RawKeysSnoc(u, x);
      var d, c0 := Distinctive(u), Cleaned(x);
      if c0 != "" && Lower(c0) !in Keys(d) {
        DistinctiveMembers(u);
        if Lower(c0) in RawKeys(u) {
          KeyOfFirstSpelling(u, c0);
        }
        assert Lower(Cleaned(x)) == Lower(c0);
        KeyOrderedNew(RawKeys(u), d, c0);
      } else {
        KeyOrderedSnoc(RawKeys(u), d, Lower(c0));
      }
    }
  }

  /** What `_normalize_keywords` promises: blanks dropped, each keyword in the
      first spelling of its case-insensitive key, keys in first-occurrence
      order, and at most `max_keywords` of them (one when it is below 1); the
      list is cut only when more distinct keys exist. */
  lemma NormalizedKeywordsMeaning(raw: seq<Option<string>>, maxKeywords: int)
    ensures var r := NormalizedKeywords(Some(raw), maxKeywords);
            (forall k :: 0 <= k < |r| ==> FirstSpelling(raw, r[k]))
            && (forall j, k :: 0 <= j < k < |r| ==>
                  FirstIndex(RawKeys(raw), Lower(r[j])) < FirstIndex(RawKeys(raw), Lower(r[k])))
            && (|r| < Cap(maxKeywords) ==> forall c :: FirstSpelling(raw, c) ==> c in r)
  {
    DistinctiveMembers(raw);
    DistinctiveOrder(raw);
    var d := Distinctive(raw);
    var r := NormalizedKeywords(Some(raw), maxKeywords);
    assert r == d[..|r|];
    forall k | 0 <= k < |r|
      ensures FirstSpelling(raw, r[k])
    {
      assert r[k] == d[k] && d[k] in d;
    }
  }

  /** The keywords as the list of strings they are. */
  function Wrap(xs: seq<string>): (r: seq<Option<string>>)
    ensures |r| == |xs|
  {
    seq(|xs|, i requires 0 <= i < |xs| => Some(xs[i]))
  }

  /** A list that is already stripped, non-blank and case-insensitively
      distinct passes through the collection unchanged. */
  lemma {:induction false} DistinctiveOfClean(xs: seq<string>)
    requires forall k :: 0 <= k < |xs| ==> xs[k] != "" && NoSpaceAround(xs[k])
    requires forall j, k :: 0 <= j < k < |xs| ==> Lower(xs[j]) != Lower(xs[k])
    ensures Distinctive(Wrap(xs)) == xs
    decreases |xs|
  {
    if |xs| > 0 {
      var u := xs[..|xs| - 1];
      assert Wrap(xs)[..|xs| - 1] == Wrap(u);
      DistinctiveOfClean(u);
      StripOfClean(xs[|xs| - 1]);
      assert Lower(xs[|xs| - 1]) !in Keys(u);
    }
  }

  /** Normalising normalised keywords with the same cap changes nothing. */
  lemma NormalizeIdempotent(raw: Option<seq<Option<string>>>, maxKeywords: int)
    ensures var r := NormalizedKeywords(raw, maxKeywords);
            NormalizedKeywords(Some(Wrap(r)), maxKeywords) == r
  {
    DistinctiveOfClean(NormalizedKeywords(raw, maxKeywords));
  }

  // ---- `_build_messages` and `enrich_chunks` ----

  /** The chunk fields enrichment reads or writes; a missing key is None. */
  datatype MetaChunk = MetaChunk(
    text: Option<string>,
    sectionTitle: Option<string>,
    etype: Option<string>,
    pageStart: Option<int>,
    pageEnd: Option<int>,
    summary: Option<string>,
    keywords: Option<seq<string>>)

  /** The structured reply: a summary and a keyword list, either missing. */
  datatype MetaReply = MetaReply(summary: Option<string>, keywords: Option<seq<Option<string>>>)

  /** The `metadata` section of the configuration. */
  datatype MetadataSection = MetadataSection(
    provider: Field<string>,
    modelName: Field<string>,
    maxKeywords: Option<int>,
    summaryLines: Option<int>)

  /** The renderer receives the user template, the chunk, its stripped text,
      the keyword budget and the summary length. */
  type Render = (string, MetaChunk, string, int, int) -> string

  /** `_build_messages(prompt, chunk, max_keywords, summary_lines)`: None
      exactly when the chunk's text is blank. */
  function ChunkMessages(prompt: Prompt, chunk: MetaChunk, maxKeywords: int, summaryLines: int,
                         render: Render): (m: Option<seq<Message>>)
    ensures m.None? <==> Strip(chunk.text.GetOr("")) == ""
    ensures m.Some? ==> |m.value| == 2 && m.value[0] == Message("system", prompt.system)
                        && m.value[1].role == "user"
  {
    var text := Strip(chunk.text.GetOr(""));
    if text == "" then None
    else Some([Message("system", prompt.system),
               Message("user", render(prompt.user, chunk, text, maxKeywords, summaryLines))])
  }

  /** `chunk.get("summary") or chunk.get("keywords")` */
  predicate HasMetadata(c: MetaChunk) {
    (c.summary.Some? && c.summary.value != "") || (c.keywords.Some? && |c.keywords.value| > 0)
  }

  /** What one iteration of `enrich_chunks` leaves in the chunk; the chat
      call returns None where the source's call raises. */
  function Enriched(chunk: MetaChunk, overwrite: bool, msec: MetadataSection, prompt: Prompt,
                    render: Render, chat: (Option<string>, seq<Message>) -> Option<MetaReply>): MetaChunk
  {
    var maxKeywords := msec.maxKeywords.GetOr(6);
    if !overwrite && HasMetadata(chunk) then chunk
    else
      var messages := ChunkMessages(prompt, chunk, maxKeywords, msec.summaryLines.GetOr(3), render);
      if messages.None? then chunk
      else
        var reply := chat(msec.modelName.GetOrNull("qwen3:8b"), messages.value);
        if reply.None? then chunk
        else chunk.(summary := Some(Strip(reply.value.summary.GetOr(""))),
                    keywords := Some(NormalizedKeywords(reply.value.keywords, maxKeywords)))
  }

  /** The skip rules: a chunk keeps its metadata unless overwriting, a chunk
      with blank text or a failed call is left as it was, and otherwise only
      the summary (stripped) and the normalised keywords are written. */
  lemma EnrichedRules(chunk: MetaChunk, overwrite: bool, msec: MetadataSection, prompt: Prompt,
                      render: Render, chat: (Option<string>, seq<Message>) -> Option<MetaReply>)
    ensures var e := Enriched(chunk, overwrite, msec, prompt, render, chat);
            && e.(summary := chunk.summary, keywords := chunk.keywords) == chunk
            && (!overwrite && HasMetadata(chunk) ==> e == chunk)
            && (Strip(chunk.text.GetOr("")) == "" ==> e == chunk)
            && (e != chunk ==> e.summary.Some? && NoSpaceAround(e.summary.value)
                               && e.keywords.Some? && |e.keywords.value| <= Cap(msec.maxKeywords.GetOr(6)))
    ensures var maxKeywords := msec.maxKeywords.GetOr(6);
            var messages := ChunkMessages(prompt, chunk, maxKeywords, msec.summaryLines.GetOr(3), render);
            var e := Enriched(chunk, overwrite, msec, prompt, render, chat);
            (overwrite || !HasMetadata(chunk)) && messages.Some? ==>
              var reply := chat(msec.modelName.GetOrNull("qwen3:8b"), messages.value);
              && (reply.None? ==> e == chunk)
              && (reply.Some? ==>
                    e.summary == Some(Strip(reply.value.summary.GetOr("")))
                    && e.keywords == Some(NormalizedKeywords(reply.value.keywords, maxKeywords)))
  {
  }

  /** The structured chat call as the source writes it: it passes a `think`
      argument that the adapter does not accept, so every call raises. */
  function ChatAsWritten(model: Option<string>, messages: seq<Message>): Option<MetaReply> {
    None
  }

  /** As written, enrichment never changes a chunk: every call fails and the
      chunk is kept as it was. */
  lemma EnrichedAsWritten(chunk: MetaChunk, overwrite: bool, msec: MetadataSection, prompt: Prompt,
                          render: Render)
    ensures Enriched(chunk, overwrite, msec, prompt, render, ChatAsWritten) == chunk
    ensures !HasMetadata(chunk) ==> !HasMetadata(Enriched(chunk, overwrite, msec, prompt, render, ChatAsWritten))
  {
  }

  /** `enrich_chunks(chunks, overwrite)`: the provider is checked before any
      chunk is read; then each chunk is enriched in place and the list of the
      same chunks is returned. */
  method EnrichChunks(chunks: array<MetaChunk>, overwrite: bool, msec: MetadataSection, prompt: Prompt,
                      render: Render, chat: (Option<string>, seq<Message>) -> Option<MetaReply>)
    returns (r: Result<seq<MetaChunk>, string>)
    modifies chunks
    ensures !IsOllama(msec.provider) ==> r.Err? && chunks[..] == old(chunks[..])
    ensures IsOllama(msec.provider) ==>
              r == Ok(chunks[..])
              && forall i :: 0 <= i < chunks.Length ==>
                   chunks[i] == Enriched(old(chunks[i]), overwrite, msec, prompt, render, chat)
  {
    if !IsOllama(msec.provider) {
      return Err("NotImplementedError");
    }
    var enriched: seq<MetaChunk> := [];
    for i := 0 to chunks.Length
      invariant enriched == chunks[..i]
      invariant forall k :: 0 <= k < i ==>
                  chunks[k] == Enriched(old(chunks[k]), overwrite, msec, prompt, render, chat)
      invariant forall k :: i <= k < chunks.Length ==> chunks[k] == old(chunks[k])
    {
      chunks[i] := Enriched(chunks[i], overwrite, msec, prompt, render, chat);
      enriched := enriched + [chunks[i]];
    }
    assert chunks[..chunks.Length] == chunks[..];
    return Ok(enriched);
  }
}
