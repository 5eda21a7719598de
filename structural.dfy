/** The structural chunker of the graph pipeline: title and table elements
    ("boundary" types) each become a chunk of their own and close the pending
    text run before them; the other elements accumulate until their raw text
    reaches `min_chars` characters, and whatever is pending at the end forms a
    last chunk. */
module StructuralChunks {
  import opened Wrappers
  import opened Text
  import opened Lists

  const DefaultMinChars: int := 2048
  const DefaultBoundaryTypes: seq<string> := ["title", "table"]

  /** An element dictionary; `type`, `text` and `page` distinguish a missing
      key from the value None because the source reads them with a default or
      by subscript. */
  datatype Element = Element(
    etype: Field<string>,
    text: Field<string>,
    page: Field<int>,
    sourceDoc: Option<string>,
    docId: Option<string>)

  datatype Chunk = Chunk(
    sourceDoc: Option<string>,
    docId: Option<string>,
    chunkId: int,
    ctype: string,
    text: string,
    pageStart: Option<int>,
    pageEnd: Option<int>,
    sourceElements: seq<nat>)

  /** `el.get("type", "text")` */
  function TypeOf(el: Element): Option<string> {
    el.etype.GetOrNull("text")
  }

  predicate IsBoundary(el: Element, boundaryTypes: seq<string>) {
    TypeOf(el).Some? && TypeOf(el).value in boundaryTypes
  }

  /** `el.get("text", "")`; a text of None makes the source raise, see `Merge`. */
  function RawText(el: Element): string {
    el.text.GetOrNull("").GetOr("")
  }

  function PageOf(el: Element): Option<int> {
    el.page.Get()
  }

  /** The texts `" ".join` receives for the run `els[a..b]`: every truthy text, stripped. */
  function Parts(els: seq<Element>, a: nat, b: nat): seq<string>
    requires a <= b <= |els|
    decreases b - a
  {
    if a == b then []
    else
      var t := RawText(els[b - 1]);
      Parts(els, a, b - 1) + (if t != "" then [Strip(t)] else [])
  }

  function MergedText(els: seq<Element>, a: nat, b: nat): string
    requires a <= b <= |els|
  {
    Strip(Join(" ", Parts(els, a, b)))
  }

  /** The summed raw text length of the run `els[a..b]` (`current_length`). */
  function LenSum(els: seq<Element>, a: nat, b: nat): nat
    requires a <= b <= |els|
    decreases b - a
  {
    if a == b then 0 else LenSum(els, a, b - 1) + |RawText(els[b - 1])|
  }

  /** The text chunk over the run `els[a..b]`; `from` is the element being
      read when it is closed. */
  function TextChunk(els: seq<Element>, a: nat, b: nat, from: Element, chunkId: int): Chunk
    requires a < b <= |els|
  {
    Chunk(from.sourceDoc, from.docId, chunkId, "text", MergedText(els, a, b),
          PageOf(els[a]), PageOf(els[b - 1]), Range(a, b))
  }

  function BoundaryChunk(el: Element, chunkId: int, i: nat): Chunk
    requires TypeOf(el).Some?
  {
    Chunk(el.sourceDoc, el.docId, chunkId, TypeOf(el).value, Strip(RawText(el)),
          PageOf(el), PageOf(el), [i])
  }

  /** A boundary element alone, with its type, stripped text and page. */
  predicate BoundaryChunkOk(els: seq<Element>, boundaryTypes: seq<string>, c: Chunk) {
    |c.sourceElements| == 1 && c.sourceElements[0] < |els|
    && var e := els[c.sourceElements[0]];
    IsBoundary(e, boundaryTypes)
    && c.ctype == TypeOf(e).value && c.text == Strip(RawText(e))
    && c.sourceDoc == e.sourceDoc && c.docId == e.docId
    && c.pageStart == PageOf(e) && c.pageEnd == PageOf(e)
  }

  /** A text chunk: a run of consecutive non-boundary elements that reaches
      `min_chars` with its last element and not before, and ends there, at a
      boundary or at the end of the input. Its text is the run's merged text,
      its pages those of the run's first and last element, and its document
      that of the element read when it was closed: the boundary that closed
      it, or else its own last element. */
  predicate TextChunkOk(els: seq<Element>, boundaryTypes: seq<string>, minChars: int, c: Chunk) {
    var src := c.sourceElements;
    |src| > 0 && src[0] + |src| <= |els|
    && var a, b := src[0], src[0] + |src|;
    src == Range(a, b)
    && (forall j :: a <= j < b ==> !IsBoundary(els[j], boundaryTypes))
    && (b - a > 1 ==> LenSum(els, a, b - 1) < minChars)
    && (b == |els| || IsBoundary(els[b], boundaryTypes) || LenSum(els, a, b) >= minChars)
    && c.ctype == "text" && c.text == MergedText(els, a, b)
    && c.pageStart == PageOf(els[a]) && c.pageEnd == PageOf(els[b - 1])
    && var from := if b < |els| && LenSum(els, a, b) < minChars then els[b] else els[b - 1];
    c.sourceDoc == from.sourceDoc && c.docId == from.docId
  }

  predicate ChunkOk(els: seq<Element>, boundaryTypes: seq<string>, minChars: int, c: Chunk) {
    BoundaryChunkOk(els, boundaryTypes, c) || TextChunkOk(els, boundaryTypes, minChars, c)
  }

  predicate ChunksOk(els: seq<Element>, boundaryTypes: seq<string>, minChars: int, chunks: seq<Chunk>) {
    |chunks| == 0
    || (ChunksOk(els, boundaryTypes, minChars, chunks[..|chunks| - 1])
        && ChunkOk(els, boundaryTypes, minChars, chunks[|chunks| - 1]))
  }

  lemma {:induction false} ChunksOkAll(els: seq<Element>, boundaryTypes: seq<string>, minChars: int,
                                       chunks: seq<Chunk>)
    requires ChunksOk(els, boundaryTypes, minChars, chunks)
    ensures forall k :: 0 <= k < |chunks| ==> ChunkOk(els, boundaryTypes, minChars, chunks[k])
  {
    if |chunks| > 0 {
      var init := chunks[..|chunks| - 1];
      ChunksOkAll(els, boundaryTypes, minChars, init);
      forall k | 0 <= k < |chunks| - 1
        ensures ChunkOk(els, boundaryTypes, minChars, chunks[k])
      {
        assert chunks[k] == init[k];
      }
    }
  }

  predicate IdsOk(chunks: seq<Chunk>) {
    forall k :: 0 <= k < |chunks| ==> chunks[k].chunkId == k + 1
  }

  /** The concatenation of every chunk's `source_elements`. */
  function Flatten(chunks: seq<Chunk>): seq<nat> {
    if |chunks| == 0 then []
    else Flatten(chunks[..|chunks| - 1]) + chunks[|chunks| - 1].sourceElements
  }

  /** What the loop has built after `i` elements: ids count up from 1, the
      chunks cover exactly the elements before the pending run
      `els[start..i]`, and that run holds no boundary and is shorter than
      `min_chars` when it is not empty. */
  predicate Inv(els: seq<Element>, boundaryTypes: seq<string>, minChars: int, chunks: seq<Chunk>,
                start: nat, length: int, chunkId: int, i: nat) {
    start <= i <= |els|
    && length == LenSum(els, start, i) && (start < i ==> length < minChars)
    && (forall j :: start <= j < i ==> !IsBoundary(els[j], boundaryTypes))
    && chunkId == |chunks| + 1 && IdsOk(chunks)
    && Flatten(chunks) == Range(0, start)
    && ChunksOk(els, boundaryTypes, minChars, chunks)
  }

  /** Appending a well-formed chunk with the next id keeps the chunk list
      well formed and extends the covered range. */
  lemma Append(els: seq<Element>, boundaryTypes: seq<string>, minChars: int, chunks: seq<Chunk>,
               c: Chunk, a: nat, b: nat)
    requires ChunksOk(els, boundaryTypes, minChars, chunks) && IdsOk(chunks)
    requires ChunkOk(els, boundaryTypes, minChars, c) && c.chunkId == |chunks| + 1
    requires a <= b && Flatten(chunks) == Range(0, a) && c.sourceElements == Range(a, b)
    ensures ChunksOk(els, boundaryTypes, minChars, chunks + [c]) && IdsOk(chunks + [c])
    ensures Flatten(chunks + [c]) == Range(0, b)
  {
    assert (chunks + [c])[..|chunks|] == chunks;
    RangeAppend(0, a, b);
  }

  /** The run `els[a..b]` closed while element `from` is read is a well-formed text chunk. */
  lemma TextChunkIsOk(els: seq<Element>, boundaryTypes: seq<string>, minChars: int,
                      a: nat, b: nat, from: Element, chunkId: int)
    requires a < b <= |els|
    requires forall j :: a <= j < b ==> !IsBoundary(els[j], boundaryTypes)
    requires b - a > 1 ==> LenSum(els, a, b - 1) < minChars
    requires b == |els| || IsBoundary(els[b], boundaryTypes) || LenSum(els, a, b) >= minChars
    requires from == if b < |els| && LenSum(els, a, b) < minChars then els[b] else els[b - 1]
    ensures TextChunkOk(els, boundaryTypes, minChars, TextChunk(els, a, b, from, chunkId))
  {
    var src := Range(a, b);
    assert src[0] == a && |src| == b - a;
  }

  /** Closing the run `els[a..b]` while element `from` is read extends the
      chunk list and leaves nothing pending. */
  lemma Close(els: seq<Element>, boundaryTypes: seq<string>, minChars: int,
              chunks: seq<Chunk>, a: nat, b: nat, from: Element)
    requires a < b <= |els|
    requires ChunksOk(els, boundaryTypes, minChars, chunks) && IdsOk(chunks)
    requires Flatten(chunks) == Range(0, a)
    requires forall j :: a <= j < b ==> !IsBoundary(els[j], boundaryTypes)
    requires b - a > 1 ==> LenSum(els, a, b - 1) < minChars
    requires b == |els| || IsBoundary(els[b], boundaryTypes) || LenSum(els, a, b) >= minChars
    requires from == if b < |els| && LenSum(els, a, b) < minChars then els[b] else els[b - 1]
    ensures var c := TextChunk(els, a, b, from, |chunks| + 1);
            Inv(els, boundaryTypes, minChars, chunks + [c], b, 0, |chunks| + 2, b)
  {
    var c := TextChunk(els, a, b, from, |chunks| + 1);
    TextChunkIsOk(els, boundaryTypes, minChars, a, b, from, |chunks| + 1);
    Append(els, boundaryTypes, minChars, chunks, c, a, b);
  }

  /** A boundary element gets its own chunk. */
  lemma BoundaryOk(els: seq<Element>, boundaryTypes: seq<string>, minChars: int,
                   chunks: seq<Chunk>, i: nat)
    requires i < |els| && IsBoundary(els[i], boundaryTypes)
    requires ChunksOk(els, boundaryTypes, minChars, chunks) && IdsOk(chunks)
    requires Flatten(chunks) == Range(0, i)
    ensures var c := BoundaryChunk(els[i], |chunks| + 1, i);
            Inv(els, boundaryTypes, minChars, chunks + [c], i + 1, 0, |chunks| + 2, i + 1)
  {
    var c := BoundaryChunk(els[i], |chunks| + 1, i);
    assert c.sourceElements == Range(i, i + 1);
    Append(els, boundaryTypes, minChars, chunks, c, i, i + 1);
  }

  /** Element `i` is a boundary: the pending run, if any, becomes a text chunk
      taking its document from the boundary, then the boundary gets its own chunk. */
  method StepBoundary(els: seq<Element>, boundaryTypes: seq<string>, minChars: int,
                      chunks: seq<Chunk>, start: nat, length: int, chunkId: int, i: nat)
    returns (chunks': seq<Chunk>, start': nat, length': int, chunkId': int)
    requires i < |els| && IsBoundary(els[i], boundaryTypes)
    requires Inv(els, boundaryTypes, minChars, chunks, start, length, chunkId, i)
    ensures Inv(els, boundaryTypes, minChars, chunks', start', length', chunkId', i + 1)
  {
    var el := els[i];
    chunks', chunkId' := chunks, chunkId;
    if start < i {
      Close(els, boundaryTypes, minChars, chunks, start, i, el);
      chunks' := chunks' + [TextChunk(els, start, i, el, chunkId')];
      chunkId' := chunkId' + 1;
    }
    BoundaryOk(els, boundaryTypes, minChars, chunks', i);
    chunks' := chunks' + [BoundaryChunk(el, chunkId', i)];
    chunkId' := chunkId' + 1;
    start', length' := i + 1, 0;
  }

  /** A non-boundary element that leaves the run below `min_chars` extends it. */
  lemma Extend(els: seq<Element>, boundaryTypes: seq<string>, minChars: int,
               chunks: seq<Chunk>, start: nat, i: nat)
    requires start <= i < |els| && !IsBoundary(els[i], boundaryTypes)
    requires Inv(els, boundaryTypes, minChars, chunks, start, LenSum(els, start, i), |chunks| + 1, i)
    requires LenSum(els, start, i + 1) < minChars
    ensures Inv(els, boundaryTypes, minChars, chunks, start, LenSum(els, start, i + 1), |chunks| + 1, i + 1)
  {
  }

  /** Element `i` is not a boundary: it joins the pending run, which becomes a
      text chunk once its length reaches `min_chars`. */
  method StepText(els: seq<Element>, boundaryTypes: seq<string>, minChars: int,
                  chunks: seq<Chunk>, start: nat, length: int, chunkId: int, i: nat)
    returns (chunks': seq<Chunk>, start': nat, length': int, chunkId': int)
    requires i < |els| && !IsBoundary(els[i], boundaryTypes)
    requires Inv(els, boundaryTypes, minChars, chunks, start, length, chunkId, i)
    ensures Inv(els, boundaryTypes, minChars, chunks', start', length', chunkId', i + 1)
  {
    var el := els[i];
    chunks', start', length', chunkId' := chunks, start, length + |RawText(el)|, chunkId;
    assert length' == LenSum(els, start, i + 1);
    if length' < minChars {
      Extend(els, boundaryTypes, minChars, chunks, start, i);
    } else {
      Close(els, boundaryTypes, minChars, chunks, start, i + 1, el);
      chunks' := chunks' + [TextChunk(els, start, i + 1, el, chunkId')];
      chunkId' := chunkId' + 1;
      start', length' := i + 1, 0;
    }
  }

  /** `merge_elements_to_chunks(elements, min_chars, boundary_types)`. The
      pending list `current_chunk` always holds consecutive elements, so it is
      kept as the run `els[start..i]`. The source raises on an element whose
      text is None. */
  method Merge(els: seq<Element>, minChars: int, boundaryTypes: seq<string>) returns (chunks: seq<Chunk>)
    requires forall j :: 0 <= j < |els| ==> !els[j].text.Null?
    ensures IdsOk(chunks)
    ensures Flatten(chunks) == Range(0, |els|)
    ensures ChunksOk(els, boundaryTypes, minChars, chunks)
  {
    chunks := [];
    var start: nat := 0;
    var length := 0;
    var chunkId := 1;
    for i := 0 to |els|
      invariant Inv(els, boundaryTypes, minChars, chunks, start, length, chunkId, i)
    {
      if IsBoundary(els[i], boundaryTypes) {
        chunks, start, length, chunkId := StepBoundary(els, boundaryTypes, minChars, chunks, start, length, chunkId, i);
      } else {
        chunks, start, length, chunkId := StepText(els, boundaryTypes, minChars, chunks, start, length, chunkId, i);
      }
    }
    if start < |els| {
      Close(els, boundaryTypes, minChars, chunks, start, |els|, els[|els| - 1]);
      chunks := chunks + [TextChunk(els, start, |els|, els[|els| - 1], chunkId)];
    }
  }

  lemma {:induction false} InFlatten(chunks: seq<Chunk>, x: nat)
    requires x in Flatten(chunks)
    ensures exists k :: 0 <= k < |chunks| && x in chunks[k].sourceElements
  {
    var init := chunks[..|chunks| - 1];
    if x in Flatten(init) {
      InFlatten(init, x);
      var k :| 0 <= k < |init| && x in init[k].sourceElements;
      assert chunks[k] == init[k];
    }
  }

  /** A text chunk holds no boundary element. */
  lemma TextChunkNoBoundary(els: seq<Element>, boundaryTypes: seq<string>, minChars: int, c: Chunk, x: nat)
    requires TextChunkOk(els, boundaryTypes, minChars, c) && x in c.sourceElements
    ensures x < |els| && !IsBoundary(els[x], boundaryTypes)
  {
    var src := c.sourceElements;
    var p :| 0 <= p < |src| && src[p] == x;
    assert src[p] == src[0] + p;
  }

  /** A chunk holding a boundary element is that element's own chunk. */
  lemma ChunkOfBoundary(els: seq<Element>, boundaryTypes: seq<string>, minChars: int, c: Chunk, i: nat)
    requires ChunkOk(els, boundaryTypes, minChars, c) && i in c.sourceElements
    requires i < |els| && IsBoundary(els[i], boundaryTypes)
    ensures c.sourceElements == [i] && BoundaryChunkOk(els, boundaryTypes, c)
  {
    if TextChunkOk(els, boundaryTypes, minChars, c) {
      TextChunkNoBoundary(els, boundaryTypes, minChars, c, i);
    }
  }

  lemma ChunkOkAt(els: seq<Element>, boundaryTypes: seq<string>, minChars: int, chunks: seq<Chunk>, k: nat)
    requires ChunksOk(els, boundaryTypes, minChars, chunks) && k < |chunks|
    ensures ChunkOk(els, boundaryTypes, minChars, chunks[k])
  {
    ChunksOkAll(els, boundaryTypes, minChars, chunks);
  }

  /** Every boundary element forms a chunk of its own. */
  lemma BoundaryAlone(els: seq<Element>, boundaryTypes: seq<string>, minChars: int,
                      chunks: seq<Chunk>, i: nat)
    requires ChunksOk(els, boundaryTypes, minChars, chunks) && Flatten(chunks) == Range(0, |els|)
    requires i < |els| && IsBoundary(els[i], boundaryTypes)
    ensures exists k :: 0 <= k < |chunks| && chunks[k].sourceElements == [i]
                        && BoundaryChunkOk(els, boundaryTypes, chunks[k])
  {
    assert Range(0, |els|)[i] == i;
    InFlatten(chunks, i);
    var k :| 0 <= k < |chunks| && i in chunks[k].sourceElements;
    ChunkOkAt(els, boundaryTypes, minChars, chunks, k);
    ChunkOfBoundary(els, boundaryTypes, minChars, chunks[k], i);
  }

  /** Every chunk holds at least one element, so no input gives no chunk. */
  lemma NoElementsNoChunks(els: seq<Element>, boundaryTypes: seq<string>, minChars: int, chunks: seq<Chunk>)
    requires ChunksOk(els, boundaryTypes, minChars, chunks) && Flatten(chunks) == Range(0, |els|)
    ensures |chunks| <= |els|
    ensures |els| == 0 ==> chunks == []
  {
    ChunksOkAll(els, boundaryTypes, minChars, chunks);
    FlattenLength(chunks);
  }

  lemma {:induction false} FlattenLength(chunks: seq<Chunk>)
    requires forall k :: 0 <= k < |chunks| ==> |chunks[k].sourceElements| > 0
    ensures |Flatten(chunks)| >= |chunks|
  {
    if |chunks| > 0 {
      FlattenLength(chunks[..|chunks| - 1]);
    }
  }
}
