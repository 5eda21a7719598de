/** The token-budgeted structural chunker of the ingestion pipeline: one pass
    over the extracted elements that keeps a pending buffer of body elements,
    a running section title, emits every table as its own chunk and every
    oversized body element alone, and flushes the buffer on noise, tables,
    oversized elements, budget overflow and the end of the input. */
module Chunking {
  import opened Wrappers
  import opened Text

  const TitleTypes: set<string> := {"title"}
  /** The body types as the source lists them: raw partitioner categories. */
  const BodyTypes: set<string> := {
    "narrativetext", "listitem", "uncategorizedtext", "formula", "codesnippet",
    "address", "emailaddress", "image", "figurecaption"
  }
  /** The body types the element extractor's output needs: it labels every body
      element "text". */
  const BodyTypesWithText: set<string> := BodyTypes + {"text"}
  const TableTypes: set<string> := {"table"}
  const NoiseTypes: set<string> := {"header", "footer", "pagenumber", "pagebreak"}
  const DefaultMaxTokens: int := 512

  /** An element dictionary: each key may be missing. */
  datatype Element = Element(
    etype: Option<string>,
    text: Option<string>,
    page: Option<int>,
    sourceDoc: Option<string>,
    tableHtml: Option<string>)

  /** A chunk dictionary; `sectionTitle` and `textAsHtml` are None when the key is not set. */
  datatype Chunk = Chunk(
    sourceDoc: Option<string>,
    chunkId: int,
    ctype: string,
    text: string,
    pageStart: Option<int>,
    pageEnd: Option<int>,
    sourceElements: seq<nat>,
    sectionTitle: Option<string>,
    textAsHtml: Option<string>)

  /** The chunker's parameters: the token budget (`chunking.max_tokens`), the
      tokenizer's length function, and the set of body types. */
  datatype Settings = Settings(maxTokens: int, tokLen: string -> nat, bodyTypes: set<string>)

  /** An element with what the loop derives from it: its branch, whether its
      raw text is truthy, its stripped text and that text's token length. */
  datatype Classified = Classified(el: Element, kind: Kind, hasText: bool, text: string, tokens: nat)

  datatype Kind = Noise | Title | Table | Body | Other

  /** `(el.get("type") or "").lower()` */
  function TypeOf(el: Element): string {
    Lower(el.etype.GetOr(""))
  }

  /** `(el.get("text") or "").strip()` */
  function TextOf(el: Element): string {
    Strip(el.text.GetOr(""))
  }

  /** Which branch of the loop an element takes; the sets are tried in the
      source's order, and an empty type counts as body. */
  function KindOf(el: Element, bodyTypes: set<string>): Kind {
    var t := TypeOf(el);
    if t in NoiseTypes then Noise
    else if t in TitleTypes then Title
    else if t in TableTypes then Table
    else if t in bodyTypes || t == "" then Body
    else Other
  }

  /** Elements that end up in a chunk. */
  predicate IsContent(k: Kind) {
    k == Table || k == Body
  }

  /** Elements that leave the pending buffer alone. */
  predicate IsPassive(k: Kind) {
    k == Title || k == Other
  }

  function Classify(el: Element, s: Settings): (c: Classified)
    ensures c.el == el && c.kind == KindOf(el, s.bodyTypes)
    ensures c.hasText <==> el.text.Some? && el.text.value != ""
    ensures c.text == TextOf(el) && c.tokens == s.tokLen(TextOf(el))
  {
    var text := TextOf(el);
    Classified(el, KindOf(el, s.bodyTypes), el.text.Some? && el.text.value != "", text, s.tokLen(text))
  }

  function ClassifyAll(els: seq<Element>, s: Settings): (cs: seq<Classified>)
    ensures |cs| == |els|
    ensures forall j :: 0 <= j < |els| ==> cs[j] == Classify(els[j], s)
  {
    seq(|els|, j requires 0 <= j < |els| => Classify(els[j], s))
  }

  /** `table_as_html` when it is truthy. */
  function HtmlOf(el: Element): Option<string> {
    if el.tableHtml.Some? && el.tableHtml.value != "" then el.tableHtml else None
  }

  /** The indices below `n` of the elements that belong in some chunk, in order. */
  function ContentIndices(cs: seq<Classified>, n: nat): seq<nat>
    requires n <= |cs|
  {
    if n == 0 then []
    else ContentIndices(cs, n - 1) + (if IsContent(cs[n - 1].kind) then [n - 1] else [])
  }

  predicate Increasing(s: seq<nat>) {
    forall a, b :: 0 <= a < b < |s| ==> s[a] < s[b]
  }

  /** The content indices are increasing, and are exactly the tables and body
      elements among the first `n`. */
  lemma {:induction false} ContentIndicesFacts(cs: seq<Classified>, n: nat)
    requires n <= |cs|
    ensures Increasing(ContentIndices(cs, n))
    ensures forall j :: j in ContentIndices(cs, n) <==> 0 <= j < n && IsContent(cs[j].kind)
  {
    if n > 0 {
      ContentIndicesFacts(cs, n - 1);
      var p := ContentIndices(cs, n - 1);
      forall k | 0 <= k < |p|
        ensures p[k] < n - 1
      {
        assert p[k] in p;
      }
    }
  }

  /** The concatenation of every chunk's `source_elements`. */
  function Flatten(chunks: seq<Chunk>): seq<nat> {
    if |chunks| == 0 then []
    else Flatten(chunks[..|chunks| - 1]) + chunks[|chunks| - 1].sourceElements
  }

  lemma FlattenAppend(chunks: seq<Chunk>, c: Chunk)
    ensures Flatten(chunks + [c]) == Flatten(chunks) + c.sourceElements
  {
    assert (chunks + [c])[..|chunks|] == chunks;
  }

  lemma {:induction false} FlattenLength(chunks: seq<Chunk>)
    requires forall k :: 0 <= k < |chunks| ==> |chunks[k].sourceElements| > 0
    ensures |Flatten(chunks)| >= |chunks|
  {
    if |chunks| > 0 {
      FlattenLength(chunks[..|chunks| - 1]);
    }
  }

  /** The section title in force once the first `n` elements are read: the
      stripped text of the last title with non-empty text, if any. */
  function SectionBefore(cs: seq<Classified>, n: nat): (r: Option<string>)
    requires n <= |cs|
    ensures r.Some? ==> r.value != ""
  {
    if n == 0 then None
    else if cs[n - 1].kind == Title && cs[n - 1].text != "" then Some(cs[n - 1].text)
    else SectionBefore(cs, n - 1)
  }

  /** A buffer whose last element is at `last` is flushed at position `f`:
      everything after `last` and before `f` is passive (a title or a skipped
      element), and `f` is the end or an element that is not passive. */
  predicate FlushesAt(cs: seq<Classified>, last: nat, f: nat) {
    last < f <= |cs|
    && (forall m :: last < m < f ==> IsPassive(cs[m].kind))
    && (f == |cs| || !IsPassive(cs[f].kind))
  }

  /** The first position at or after `j` whose element is not passive, or the end. */
  function NextActive(cs: seq<Classified>, j: nat): (r: nat)
    requires j <= |cs|
    ensures j <= r <= |cs|
    decreases |cs| - j
  {
    if j == |cs| then j
    else if !IsPassive(cs[j].kind) then j
    else NextActive(cs, j + 1)
  }

  /** The flush position is unique: it is the first non-passive position after
      the buffer. */
  lemma {:induction false} FlushesAtNextActive(cs: seq<Classified>, last: nat, f: nat)
    requires FlushesAt(cs, last, f)
    ensures NextActive(cs, last + 1) == f
  {
    NextActiveAt(cs, last + 1, f);
  }

  lemma {:induction false} NextActiveAt(cs: seq<Classified>, j: nat, i: nat)
    requires j <= i <= |cs|
    requires forall m :: j <= m < i ==> IsPassive(cs[m].kind)
    requires i == |cs| || !IsPassive(cs[i].kind)
    ensures NextActive(cs, j) == i
    decreases i - j
  {
    if j < i {
      NextActiveAt(cs, j + 1, i);
    }
  }

  predicate InRange(cs: seq<Classified>, idxs: seq<nat>) {
    forall k :: 0 <= k < |idxs| ==> idxs[k] < |cs|
  }

  /** The stripped texts joined by a flush: `el["text"].strip()` of every
      buffered element whose text is truthy. */
  function MergedParts(cs: seq<Classified>, idxs: seq<nat>): seq<string>
  {
    if |idxs| == 0 then []
    else
      var j := idxs[0];
      (if j < |cs| && cs[j].hasText then [cs[j].text] else []) + MergedParts(cs, idxs[1..])
  }

  function MergedText(cs: seq<Classified>, idxs: seq<nat>): string
  {
    Strip(Join(" ", MergedParts(cs, idxs)))
  }

  function TokenSum(cs: seq<Classified>, idxs: seq<nat>): nat
  {
    if |idxs| == 0 then 0
    else
      var j := idxs[|idxs| - 1];
      TokenSum(cs, idxs[..|idxs| - 1]) + (if j < |cs| then cs[j].tokens else 0)
  }

  lemma TokenSumAppend(cs: seq<Classified>, idxs: seq<nat>, j: nat)
    requires j < |cs|
    ensures TokenSum(cs, idxs + [j]) == TokenSum(cs, idxs) + cs[j].tokens
  {
    assert (idxs + [j])[..|idxs|] == idxs;
  }

  /** A table chunk: one table element, its stripped text and page, its HTML
      only when truthy, and the section in force when it is reached. */
  predicate TableChunkOk(cs: seq<Classified>, c: Chunk) {
    var src := c.sourceElements;
    c.ctype == "table" && |src| == 1 && src[0] < |cs|
    && var e := cs[src[0]];
    e.kind == Table
    && c.text == e.text && c.sourceDoc == e.el.sourceDoc
    && c.pageStart == e.el.page && c.pageEnd == e.el.page
    && c.textAsHtml == HtmlOf(e.el)
    && c.sectionTitle == SectionBefore(cs, src[0])
  }

  /** A body element over the budget, emitted alone with its full stripped text. */
  predicate OversizedChunkOk(cs: seq<Classified>, maxTokens: int, c: Chunk) {
    var src := c.sourceElements;
    c.ctype == "text" && |src| == 1 && src[0] < |cs|
    && var e := cs[src[0]];
    e.kind == Body && e.tokens > maxTokens
    && c.text == e.text && c.sourceDoc == e.el.sourceDoc
    && c.pageStart == e.el.page && c.pageEnd == e.el.page
    && c.textAsHtml.None?
    && c.sectionTitle == SectionBefore(cs, src[0])
  }

  /** A merged text chunk: body elements within the budget, their joined
      text, and the first and last element's page ... */
  ghost predicate MergedChunkOk(cs: seq<Classified>, maxTokens: int, c: Chunk) {
    MergedContentOk(cs, maxTokens, c) && MergedPlaceOk(cs, maxTokens, c.sourceElements, c.sectionTitle)
  }

  predicate MergedContentOk(cs: seq<Classified>, maxTokens: int, c: Chunk) {
    var src := c.sourceElements;
    c.ctype == "text" && |src| > 0 && InRange(cs, src)
    && (forall k :: 0 <= k < |src| ==> cs[src[k]].kind == Body && cs[src[k]].tokens <= maxTokens)
    && TokenSum(cs, src) <= maxTokens
    && c.text == MergedText(cs, src)
    && c.sourceDoc == cs[src[0]].el.sourceDoc
    && c.pageStart == cs[src[0]].el.page && c.pageEnd == cs[src[|src| - 1]].el.page
    && c.textAsHtml.None?
  }

  /** The greedy rule: a buffer is flushed at position `f` only when `f` is the
      end, noise, a table, an oversized element, or a body element that would
      take the buffer's token total over the budget. */
  predicate Greedy(cs: seq<Classified>, maxTokens: int, src: seq<nat>, f: nat) {
    f < |cs| && cs[f].kind == Body && cs[f].tokens <= maxTokens ==> TokenSum(cs, src) + cs[f].tokens > maxTokens
  }

  /** ... with no noise or table element among them, the section in force
      when the buffer was flushed, and flushed by the greedy rule. */
  ghost predicate MergedPlaceOk(cs: seq<Classified>, maxTokens: int, src: seq<nat>, section: Option<string>) {
    |src| > 0 && InRange(cs, src)
    && (forall j :: src[0] <= j <= src[|src| - 1] ==> cs[j].kind != Noise && cs[j].kind != Table)
    && exists f :: FlushesAt(cs, src[|src| - 1], f) && section == SectionBefore(cs, f)
                   && Greedy(cs, maxTokens, src, f)
  }

  /** The section of a merged chunk is the one in force at the first position
      after its last element that is not a title or a skipped element, and
      the element there, if any, is one the buffer could not take in: noise,
      a table, or a body element that is oversized or would take the token
      total over the budget. */
  lemma MergedSection(cs: seq<Classified>, maxTokens: int, src: seq<nat>, section: Option<string>)
    requires MergedPlaceOk(cs, maxTokens, src, section)
    ensures src[|src| - 1] < |cs|
    ensures section == SectionBefore(cs, NextActive(cs, src[|src| - 1] + 1))
    ensures var f := NextActive(cs, src[|src| - 1] + 1);
            f == |cs| || cs[f].kind in {Noise, Table}
            || (cs[f].kind == Body && (cs[f].tokens > maxTokens || TokenSum(cs, src) + cs[f].tokens > maxTokens))
  {
    var f :| FlushesAt(cs, src[|src| - 1], f) && section == SectionBefore(cs, f) && Greedy(cs, maxTokens, src, f);
    FlushesAtNextActive(cs, src[|src| - 1], f);
  }

  ghost predicate ChunkOk(cs: seq<Classified>, maxTokens: int, c: Chunk) {
    TableChunkOk(cs, c) || OversizedChunkOk(cs, maxTokens, c) || MergedChunkOk(cs, maxTokens, c)
  }

  /** The pending buffer after the first `i` elements: body elements within the
      budget whose token total is `tokens`, no noise or table element since the
      first of them, and nothing but titles or skipped elements since the last. */
  predicate BufferOk(cs: seq<Classified>, maxTokens: int, buf: seq<nat>, tokens: int, i: nat) {
    i <= |cs|
    && (forall k :: 0 <= k < |buf| ==> buf[k] < i)
    && (forall k :: 0 <= k < |buf| ==> cs[buf[k]].kind == Body && cs[buf[k]].tokens <= maxTokens)
    && tokens == TokenSum(cs, buf)
    && (|buf| > 0 ==> tokens <= maxTokens)
    && (|buf| > 0 ==> forall j :: buf[0] <= j < i ==> cs[j].kind != Noise && cs[j].kind != Table)
    && (|buf| > 0 ==> forall j :: buf[|buf| - 1] < j < i ==> IsPassive(cs[j].kind))
  }

  /** The text chunk a flush emits. */
  function TextChunk(cs: seq<Classified>, buf: seq<nat>, section: Option<string>, chunkId: int): Chunk
    requires |buf| > 0 && buf[0] < |cs| && buf[|buf| - 1] < |cs|
  {
    var head := cs[buf[0]].el;
    Chunk(head.sourceDoc, chunkId, "text", MergedText(cs, buf),
          head.page, cs[buf[|buf| - 1]].el.page, buf, section, None)
  }

  /** The variables `flush_text_chunk` shares with the loop. */
  datatype State = State(
    chunks: seq<Chunk>,
    buf: seq<nat>,
    tokens: int,
    section: Option<string>,
    chunkId: int)

  predicate IdsOk(chunks: seq<Chunk>) {
    forall k :: 0 <= k < |chunks| ==> chunks[k].chunkId == k + 1
  }

  /** Every chunk is well formed (stated recursively so that it is unfolded
      one chunk at a time; `ChunksOkAll` gives the quantified form). */
  ghost predicate ChunksOk(cs: seq<Classified>, maxTokens: int, chunks: seq<Chunk>) {
    |chunks| == 0
    || (ChunksOk(cs, maxTokens, chunks[..|chunks| - 1]) && ChunkOk(cs, maxTokens, chunks[|chunks| - 1]))
  }

  lemma {:induction false} ChunksOkAll(cs: seq<Classified>, maxTokens: int, chunks: seq<Chunk>)
    requires ChunksOk(cs, maxTokens, chunks)
    ensures forall k :: 0 <= k < |chunks| ==> ChunkOk(cs, maxTokens, chunks[k])
  {
    if |chunks| > 0 {
      var init := chunks[..|chunks| - 1];
      ChunksOkAll(cs, maxTokens, init);
      forall k | 0 <= k < |chunks| - 1
        ensures ChunkOk(cs, maxTokens, chunks[k])
      {
        assert chunks[k] == init[k];
      }
    }
  }

  /** What holds after the first `i` elements are read: ids count up from 1,
      the emitted chunks followed by the buffer hold exactly the content
      elements read so far, every chunk is well formed, and the section is the
      last non-empty title read. */
  ghost predicate Inv(cs: seq<Classified>, maxTokens: int, st: State, i: nat) {
    i <= |cs|
    && st.chunkId == |st.chunks| + 1
    && IdsOk(st.chunks)
    && Flatten(st.chunks) + st.buf == ContentIndices(cs, i)
    && ChunksOk(cs, maxTokens, st.chunks)
    && BufferOk(cs, maxTokens, st.buf, st.tokens, i)
    && st.section == SectionBefore(cs, i)
  }

  lemma ChunksAppend(cs: seq<Classified>, maxTokens: int, chunks: seq<Chunk>, c: Chunk)
    requires ChunksOk(cs, maxTokens, chunks) && ChunkOk(cs, maxTokens, c)
    requires IdsOk(chunks) && c.chunkId == |chunks| + 1
    ensures ChunksOk(cs, maxTokens, chunks + [c]) && IdsOk(chunks + [c])
  {
    assert (chunks + [c])[..|chunks|] == chunks;
  }

  lemma FlushedContentOk(cs: seq<Classified>, maxTokens: int, buf: seq<nat>, tokens: int, i: nat,
                         section: Option<string>, chunkId: int)
    requires BufferOk(cs, maxTokens, buf, tokens, i) && |buf| > 0
    ensures MergedContentOk(cs, maxTokens, TextChunk(cs, buf, section, chunkId))
  {
  }

  lemma FlushedPlaceOk(cs: seq<Classified>, maxTokens: int, buf: seq<nat>, section: Option<string>, i: nat)
    requires i <= |cs| && |buf| > 0 && InRange(cs, buf) && buf[|buf| - 1] < i
    requires forall j :: buf[0] <= j <= buf[|buf| - 1] ==> cs[j].kind != Noise && cs[j].kind != Table
    requires forall j :: buf[|buf| - 1] < j < i ==> IsPassive(cs[j].kind)
    requires section == SectionBefore(cs, i)
    requires i == |cs| || !IsPassive(cs[i].kind)
    requires Greedy(cs, maxTokens, buf, i)
    ensures MergedPlaceOk(cs, maxTokens, buf, section)
  {
    assert FlushesAt(cs, buf[|buf| - 1], i);
  }

  /** A flush at a non-passive position (or the end) emits a well-formed chunk. */
  lemma FlushedChunkOk(cs: seq<Classified>, maxTokens: int, buf: seq<nat>, tokens: int,
                       section: Option<string>, chunkId: int, i: nat)
    requires BufferOk(cs, maxTokens, buf, tokens, i) && |buf| > 0
    requires section == SectionBefore(cs, i)
    requires i == |cs| || !IsPassive(cs[i].kind)
    requires Greedy(cs, maxTokens, buf, i)
    ensures ChunkOk(cs, maxTokens, TextChunk(cs, buf, section, chunkId))
  {
    FlushedContentOk(cs, maxTokens, buf, tokens, i, section, chunkId);
    BufferSpanClean(cs, maxTokens, buf, tokens, i);
    FlushedPlaceOk(cs, maxTokens, buf, section, i);
  }

  lemma BufferSpanClean(cs: seq<Classified>, maxTokens: int, buf: seq<nat>, tokens: int, i: nat)
    requires BufferOk(cs, maxTokens, buf, tokens, i) && |buf| > 0
    ensures buf[|buf| - 1] < i && InRange(cs, buf)
    ensures forall j :: buf[|buf| - 1] < j < i ==> IsPassive(cs[j].kind)
    ensures forall j :: buf[0] <= j <= buf[|buf| - 1] ==> cs[j].kind != Noise && cs[j].kind != Table
  {
    assert buf[|buf| - 1] < i;
  }

  /** The state after `flush_text_chunk`: the pending buffer, if any, emitted
      as a text chunk with the next id, and the buffer reset. */
  function Flushed(cs: seq<Classified>, st: State): (r: State)
    requires forall k :: 0 <= k < |st.buf| ==> st.buf[k] < |cs|
    ensures r.buf == [] && r.tokens == 0 && r.section == st.section
    ensures |st.buf| == 0 ==> r.chunks == st.chunks && r.chunkId == st.chunkId
    ensures |st.buf| > 0 ==> r.chunks == st.chunks + [TextChunk(cs, st.buf, st.section, st.chunkId)]
                             && r.chunkId == st.chunkId + 1
  {
    if |st.buf| == 0 then st.(tokens := 0)
    else State(st.chunks + [TextChunk(cs, st.buf, st.section, st.chunkId)], [], 0, st.section, st.chunkId + 1)
  }

  /** `flush_text_chunk`: emit the pending buffer, if any, as a text chunk and
      reset it. `i` is the position being read (or the end); a flush happens
      only where the greedy rule allows it. */
  method Flush(cs: seq<Classified>, maxTokens: int, st: State, ghost i: nat) returns (r: State)
    requires Inv(cs, maxTokens, st, i)
    requires i == |cs| || !IsPassive(cs[i].kind)
    requires Greedy(cs, maxTokens, st.buf, i)
    ensures Inv(cs, maxTokens, r, i)
    ensures r == Flushed(cs, st)
  {
    if |st.buf| == 0 {
      return st;
    }
    var c := TextChunk(cs, st.buf, st.section, st.chunkId);
    FlushOk(cs, maxTokens, st, i);
    r := State(st.chunks + [c], [], 0, st.section, st.chunkId + 1);
  }

  lemma FlushOk(cs: seq<Classified>, maxTokens: int, st: State, i: nat)
    requires Inv(cs, maxTokens, st, i) && |st.buf| > 0
    requires i == |cs| || !IsPassive(cs[i].kind)
    requires Greedy(cs, maxTokens, st.buf, i)
    ensures Inv(cs, maxTokens, State(st.chunks + [TextChunk(cs, st.buf, st.section, st.chunkId)], [], 0,
                                     st.section, st.chunkId + 1), i)
  {
    var c := TextChunk(cs, st.buf, st.section, st.chunkId);
    FlushedChunkOk(cs, maxTokens, st.buf, st.tokens, st.section, st.chunkId, i);
    ChunksAppend(cs, maxTokens, st.chunks, c);
    FlattenAppend(st.chunks, c);
    EmptyBufferOk(cs, maxTokens, i);
  }

  lemma EmptyBufferOk(cs: seq<Classified>, maxTokens: int, i: nat)
    requires i <= |cs|
    ensures BufferOk(cs, maxTokens, [], 0, i)
  {
  }

  lemma StepFacts(cs: seq<Classified>, i: nat)
    requires i < |cs|
    ensures ContentIndices(cs, i + 1)
         == ContentIndices(cs, i) + (if IsContent(cs[i].kind) then [i] else [])
    ensures cs[i].kind != Title ==> SectionBefore(cs, i + 1) == SectionBefore(cs, i)
  {
  }

  lemma BufferAdvance(cs: seq<Classified>, maxTokens: int, buf: seq<nat>, tokens: int, i: nat)
    requires i < |cs| && BufferOk(cs, maxTokens, buf, tokens, i)
    requires !IsContent(cs[i].kind)
    requires cs[i].kind == Noise ==> buf == []
    ensures BufferOk(cs, maxTokens, buf, tokens, i + 1)
  {
  }

  /** Reading a noise element (after the flush), a skipped element or a title
      with empty text: nothing but the position changes. */
  lemma SkipOk(cs: seq<Classified>, maxTokens: int, st: State, i: nat)
    requires i < |cs| && Inv(cs, maxTokens, st, i)
    requires !IsContent(cs[i].kind)
    requires cs[i].kind == Noise ==> st.buf == []
    requires cs[i].kind == Title ==> cs[i].text == ""
    ensures Inv(cs, maxTokens, st, i + 1)
  {
    StepFacts(cs, i);
    BufferAdvance(cs, maxTokens, st.buf, st.tokens, i);
  }

  /** Reading a title with non-empty text: it becomes the section. */
  lemma TitleOk(cs: seq<Classified>, maxTokens: int, st: State, i: nat)
    requires i < |cs| && Inv(cs, maxTokens, st, i)
    requires cs[i].kind == Title && cs[i].text != ""
    ensures Inv(cs, maxTokens, st.(section := Some(cs[i].text)), i + 1)
  {
    StepFacts(cs, i);
    BufferAdvance(cs, maxTokens, st.buf, st.tokens, i);
  }

  /** Emitting a table or an oversized element as its own chunk (after the flush). */
  lemma EmitOk(cs: seq<Classified>, maxTokens: int, st: State, i: nat, c: Chunk)
    requires i < |cs| && Inv(cs, maxTokens, st, i) && st.buf == []
    requires IsContent(cs[i].kind)
    requires c.sourceElements == [i] && c.chunkId == st.chunkId
    requires TableChunkOk(cs, c) || OversizedChunkOk(cs, maxTokens, c)
    ensures Inv(cs, maxTokens, st.(chunks := st.chunks + [c], chunkId := st.chunkId + 1), i + 1)
  {
    StepFacts(cs, i);
    ChunksAppend(cs, maxTokens, st.chunks, c);
    FlattenAppend(st.chunks, c);
    EmptyBufferOk(cs, maxTokens, i + 1);
  }

  /** Adding a body element within the budget to the buffer. */
  lemma AppendOk(cs: seq<Classified>, maxTokens: int, st: State, i: nat)
    requires i < |cs| && Inv(cs, maxTokens, st, i)
    requires cs[i].kind == Body && cs[i].tokens <= maxTokens
    requires st.tokens + cs[i].tokens <= maxTokens
    ensures Inv(cs, maxTokens, st.(buf := st.buf + [i], tokens := st.tokens + cs[i].tokens), i + 1)
  {
    StepFacts(cs, i);
    BufferAppend(cs, maxTokens, st.buf, st.tokens, i);
    assert Flatten(st.chunks) + (st.buf + [i]) == (Flatten(st.chunks) + st.buf) + [i];
  }

  lemma BufferAppend(cs: seq<Classified>, maxTokens: int, buf: seq<nat>, tokens: int, i: nat)
    requires i < |cs| && BufferOk(cs, maxTokens, buf, tokens, i)
    requires cs[i].kind == Body && cs[i].tokens <= maxTokens
    requires tokens + cs[i].tokens <= maxTokens
    ensures BufferOk(cs, maxTokens, buf + [i], tokens + cs[i].tokens, i + 1)
  {
    TokenSumAppend(cs, buf, i);
  }

  /** A noise element: the buffer is flushed and the element dropped. */
  method StepNoise(cs: seq<Classified>, maxTokens: int, st: State, i: nat) returns (r: State)
    requires i < |cs| && Inv(cs, maxTokens, st, i) && cs[i].kind == Noise
    ensures Inv(cs, maxTokens, r, i + 1)
    ensures r == Flushed(cs, st)
    ensures r == Next(cs, maxTokens, st, i)
  {
    r := Flush(cs, maxTokens, st, i);
    SkipOk(cs, maxTokens, r, i);
  }

  /** A title: it becomes the running section when its text is non-empty. */
  method StepTitle(cs: seq<Classified>, maxTokens: int, st: State, i: nat) returns (r: State)
    requires i < |cs| && Inv(cs, maxTokens, st, i) && cs[i].kind == Title
    ensures Inv(cs, maxTokens, r, i + 1)
    ensures r == if cs[i].text != "" then st.(section := Some(cs[i].text)) else st
    ensures r == Next(cs, maxTokens, st, i)
  {
    r := st;
    if cs[i].text != "" {
      TitleOk(cs, maxTokens, st, i);
      r := st.(section := Some(cs[i].text));
    } else {
      SkipOk(cs, maxTokens, st, i);
    }
  }

  /** The chunk of an element emitted alone: a table keeps its truthy HTML, an
      oversized body element becomes a text chunk. */
  function AloneChunk(e: Classified, i: nat, section: Option<string>, chunkId: int): Chunk {
    if e.kind == Table then
      Chunk(e.el.sourceDoc, chunkId, "table", e.text, e.el.page, e.el.page, [i], section, HtmlOf(e.el))
    else
      Chunk(e.el.sourceDoc, chunkId, "text", e.text, e.el.page, e.el.page, [i], section, None)
  }

  /** A table, or a body element over the budget: the buffer is flushed and the
      element becomes a chunk of its own, with the next id. */
  method StepAlone(cs: seq<Classified>, maxTokens: int, st: State, i: nat) returns (r: State)
    requires i < |cs| && Inv(cs, maxTokens, st, i)
    requires cs[i].kind == Table || (cs[i].kind == Body && cs[i].tokens > maxTokens)
    ensures Inv(cs, maxTokens, r, i + 1)
    ensures r == Alone(cs, st, i)
    ensures r == Next(cs, maxTokens, st, i)
  {
    var e := cs[i];
    r := Flush(cs, maxTokens, st, i);
    var c;
    if e.kind == Table {
      c := Chunk(e.el.sourceDoc, r.chunkId, "table", e.text, e.el.page, e.el.page, [i],
                 r.section, HtmlOf(e.el));
    } else {
      c := Chunk(e.el.sourceDoc, r.chunkId, "text", e.text, e.el.page, e.el.page, [i],
                 r.section, None);
    }
    assert c == AloneChunk(e, i, r.section, r.chunkId);
    EmitOk(cs, maxTokens, r, i, c);
    r := r.(chunks := r.chunks + [c], chunkId := r.chunkId + 1);
  }

  /** A body element within the budget: the buffer is flushed first if the
      element would take it over the budget, then the element is buffered. */
  method StepBody(cs: seq<Classified>, maxTokens: int, st: State, i: nat) returns (r: State)
    requires i < |cs| && Inv(cs, maxTokens, st, i)
    requires cs[i].kind == Body && cs[i].tokens <= maxTokens
    ensures Inv(cs, maxTokens, r, i + 1)
    ensures var f := if st.tokens + cs[i].tokens > maxTokens then Flushed(cs, st) else st;
            r == f.(buf := f.buf + [i], tokens := f.tokens + cs[i].tokens)
    ensures r == Next(cs, maxTokens, st, i)
  {
    r := st;
    if r.tokens + cs[i].tokens > maxTokens {
      r := Flush(cs, maxTokens, r, i);
    }
    AppendOk(cs, maxTokens, r, i);
    r := r.(buf := r.buf + [i], tokens := r.tokens + cs[i].tokens);
  }

  /** The state after element `i` is read, branch by branch. */
  function Next(cs: seq<Classified>, maxTokens: int, st: State, i: nat): (r: State)
    requires i < |cs| && forall k :: 0 <= k < |st.buf| ==> st.buf[k] < i
    ensures forall k :: 0 <= k < |r.buf| ==> r.buf[k] < i + 1
  {
    var e := cs[i];
    match e.kind
    case Noise => Flushed(cs, st)
    case Title => if e.text != "" then st.(section := Some(e.text)) else st
    case Other => st
    case Table => Alone(cs, st, i)
    case Body =>
      if e.tokens > maxTokens then Alone(cs, st, i)
      else
        var f := if st.tokens + e.tokens > maxTokens then Flushed(cs, st) else st;
        f.(buf := f.buf + [i], tokens := f.tokens + e.tokens)
  }

  /** The state after element `i` is flushed out alone. */
  function Alone(cs: seq<Classified>, st: State, i: nat): State
    requires i < |cs| && forall k :: 0 <= k < |st.buf| ==> st.buf[k] < |cs|
  {
    var f := Flushed(cs, st);
    f.(chunks := f.chunks + [AloneChunk(cs[i], i, f.section, f.chunkId)], chunkId := f.chunkId + 1)
  }

  /** The state after the first `n` elements are read. */
  function Run(cs: seq<Classified>, maxTokens: int, n: nat): (r: State)
    requires n <= |cs|
    ensures forall k :: 0 <= k < |r.buf| ==> r.buf[k] < n
  {
    if n == 0 then State([], [], 0, None, 1) else Next(cs, maxTokens, Run(cs, maxTokens, n - 1), n - 1)
  }

  /** The chunks of the whole pass: the state after every element, flushed. */
  function Merged(cs: seq<Classified>, maxTokens: int): seq<Chunk> {
    Flushed(cs, Run(cs, maxTokens, |cs|)).chunks
  }

  /** One pass of the loop of `merge_elements_to_chunks`: element `i` read. */
  method Step(cs: seq<Classified>, maxTokens: int, st: State, i: nat) returns (r: State)
    requires i < |cs| && Inv(cs, maxTokens, st, i)
    ensures Inv(cs, maxTokens, r, i + 1)
    ensures r == Next(cs, maxTokens, st, i)
  {
    match cs[i].kind
    case Noise => r := StepNoise(cs, maxTokens, st, i);
    case Title => r := StepTitle(cs, maxTokens, st, i);
    case Table => r := StepAlone(cs, maxTokens, st, i);
    case Body =>
      if cs[i].tokens > maxTokens {
        r := StepAlone(cs, maxTokens, st, i);
      } else {
        r := StepBody(cs, maxTokens, st, i);
      }
    case Other =>
      SkipOk(cs, maxTokens, st, i);
      r := st;
  }

  /** The loop of `merge_elements_to_chunks` over the classified elements. */
  method MergeClassified(cs: seq<Classified>, maxTokens: int) returns (chunks: seq<Chunk>)
    ensures IdsOk(chunks)
    ensures Flatten(chunks) == ContentIndices(cs, |cs|)
    ensures ChunksOk(cs, maxTokens, chunks)
    ensures chunks == Merged(cs, maxTokens)
  {
    var st := State([], [], 0, None, 1);
    for i := 0 to |cs|
      invariant Inv(cs, maxTokens, st, i)
      invariant st == Run(cs, maxTokens, i)
    {
      st := Step(cs, maxTokens, st, i);
    }
    st := Flush(cs, maxTokens, st, |cs|);
    chunks := st.chunks;
  }
  /** What `merge_elements_to_chunks` promises of its result for the elements `els`. */
  ghost predicate MergeSpec(els: seq<Element>, s: Settings, chunks: seq<Chunk>) {
    var cs := ClassifyAll(els, s);
    IdsOk(chunks)
    && Flatten(chunks) == ContentIndices(cs, |cs|)
    && ChunksOk(cs, s.maxTokens, chunks)
  }

  /** Two body elements whose tokens fit the budget together share one chunk:
      the greedy rule does not let the first be flushed alone. */
  lemma FittingBodiesShareChunk(cs: seq<Classified>, maxTokens: int, chunks: seq<Chunk>)
    requires |cs| == 2 && cs[0].kind == Body && cs[1].kind == Body
    requires cs[0].tokens + cs[1].tokens <= maxTokens
    requires Flatten(chunks) == ContentIndices(cs, 2) && ChunksOk(cs, maxTokens, chunks)
    ensures |chunks| == 1 && chunks[0].sourceElements == [0, 1]
  {
    TwoBodiesContent(cs);
    ChunksNonEmpty(cs, maxTokens, chunks);
    FlattenLength(chunks);
    if |chunks| == 2 {
      var a := chunks[0].sourceElements;
      assert Flatten(chunks[..1]) == a;
      assert Flatten(chunks) == a + chunks[1].sourceElements;
      assert |a| == 1 && a[0] == (a + chunks[1].sourceElements)[0];
      ChunksOkAll(cs, maxTokens, chunks);
      FirstNotAlone(cs, maxTokens, chunks[0]);
    } else {
      assert Flatten(chunks) == Flatten(chunks[..0]) + chunks[0].sourceElements;
    }
  }

  lemma TwoBodiesContent(cs: seq<Classified>)
    requires |cs| == 2 && cs[0].kind == Body && cs[1].kind == Body
    ensures ContentIndices(cs, 2) == [0, 1]
  {
    assert ContentIndices(cs, 1) == ContentIndices(cs, 0) + [0];
    assert ContentIndices(cs, 2) == [0] + [1];
  }

  /** The first of two body elements that fit together is no chunk on its own. */
  lemma FirstNotAlone(cs: seq<Classified>, maxTokens: int, c: Chunk)
    requires |cs| == 2 && cs[0].kind == Body && cs[1].kind == Body
    requires cs[0].tokens + cs[1].tokens <= maxTokens
    requires |c.sourceElements| == 1 && c.sourceElements[0] == 0
    ensures !ChunkOk(cs, maxTokens, c)
  {
    var a := c.sourceElements;
    assert TokenSum(cs, a) == cs[0].tokens by {
      assert a[..0] == [];
    }
  }

  /** `merge_elements_to_chunks(elements)` with the configured budget, the
      tokenizer and the set of body types given as `s`. */
  method MergeElementsToChunks(els: seq<Element>, s: Settings) returns (chunks: seq<Chunk>)
    ensures MergeSpec(els, s, chunks)
    ensures chunks == Merged(ClassifyAll(els, s), s.maxTokens)
  {
    var cs := ClassifyAll(els, s);
    chunks := MergeClassified(cs, s.maxTokens);
  }

  /** The chunker as configured in the source: body types without "text". */
  function AsWritten(maxTokens: int, tokLen: string -> nat): Settings {
    Settings(maxTokens, tokLen, BodyTypes)
  }

  /** The chunker with "text" accepted as a body type. */
  function Corrected(maxTokens: int, tokLen: string -> nat): Settings {
    Settings(maxTokens, tokLen, BodyTypesWithText)
  }

  /** Every chunk holds at least one element. */
  lemma ChunksNonEmpty(cs: seq<Classified>, maxTokens: int, chunks: seq<Chunk>)
    requires ChunksOk(cs, maxTokens, chunks)
    ensures forall k :: 0 <= k < |chunks| ==> |chunks[k].sourceElements| > 0
  {
    ChunksOkAll(cs, maxTokens, chunks);
  }

  /** Without a table or body element there is no chunk; in particular an
      empty element list gives an empty chunk list. */
  lemma NoContentNoChunks(els: seq<Element>, s: Settings, chunks: seq<Chunk>)
    requires MergeSpec(els, s, chunks)
    requires forall j :: 0 <= j < |els| ==> !IsContent(KindOf(els[j], s.bodyTypes))
    ensures chunks == []
  {
    var cs := ClassifyAll(els, s);
    ContentIndicesFacts(cs, |cs|);
    ChunksNonEmpty(cs, s.maxTokens, chunks);
    FlattenLength(chunks);
  }

  /** Element `j` appears in some chunk exactly when it is a table or a body element. */
  lemma InSomeChunkIff(els: seq<Element>, s: Settings, chunks: seq<Chunk>, j: nat)
    requires MergeSpec(els, s, chunks)
    ensures j in Flatten(chunks) <==> j < |els| && IsContent(KindOf(els[j], s.bodyTypes))
  {
    ContentIndicesFacts(ClassifyAll(els, s), |els|);
  }

  /** An element typed "text" is skipped as written and is body when corrected. */
  lemma TextTypeKind(el: Element, bodyTypes: set<string>)
    requires el.etype == Some("text")
    ensures KindOf(el, bodyTypes) == if "text" in bodyTypes then Body else Other
  {
    var t := el.etype.value;
    assert Lower(t) == t by {
      assert |Lower(t)| == 4;
      assert Lower(t)[0] == 't' && Lower(t)[1] == 'e' && Lower(t)[2] == 'x' && Lower(t)[3] == 't';
    }
  }

  /** As written, an element typed "text" (what the element extractor emits
      for every body element) lands in no chunk. */
  lemma TextElementsDropped(els: seq<Element>, maxTokens: int, tokLen: string -> nat,
                            chunks: seq<Chunk>, j: nat)
    requires MergeSpec(els, AsWritten(maxTokens, tokLen), chunks)
    requires j < |els| && els[j].etype == Some("text")
    ensures j !in Flatten(chunks)
  {
    InSomeChunkIff(els, AsWritten(maxTokens, tokLen), chunks, j);
    TextTypeKind(els[j], BodyTypes);
  }

  /** A concrete instance: one narrative element, typed "text" by the extractor,
      gives no chunk at all. */
  lemma TextOnlyDocumentHasNoChunks(tokLen: string -> nat, chunks: seq<Chunk>)
    requires MergeSpec([Element(Some("text"), Some("Revenue grew 5%."), Some(1), Some("report"), None)],
                       AsWritten(DefaultMaxTokens, tokLen), chunks)
    ensures chunks == []
  {
    var els := [Element(Some("text"), Some("Revenue grew 5%."), Some(1), Some("report"), None)];
    TextTypeKind(els[0], BodyTypes);
    NoContentNoChunks(els, AsWritten(DefaultMaxTokens, tokLen), chunks);
  }

  /** Corrected, every element typed "text" lands in a chunk. */
  lemma TextElementsKept(els: seq<Element>, maxTokens: int, tokLen: string -> nat,
                         chunks: seq<Chunk>, j: nat)
    requires MergeSpec(els, Corrected(maxTokens, tokLen), chunks)
    requires j < |els| && els[j].etype == Some("text")
    ensures j in Flatten(chunks)
  {
    InSomeChunkIff(els, Corrected(maxTokens, tokLen), chunks, j);
    TextTypeKind(els[j], BodyTypesWithText);
  }
}
