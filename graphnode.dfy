/** The LangChain graph's generation node: how the retrieved documents are
    laid out as numbered context blocks for the prompt, and the `sources`
    list returned beside the answer, whose ids are the block numbers. The
    retriever and the model call are left out. */
module GraphNode {
  import opened Wrappers
  import opened Text
  import opened Values

  /** A retrieved document: its `source` and `page` metadata and its text. */
  datatype Doc = Doc(source: Field<Scalar>, page: Field<Scalar>, content: string)

  /** `d.metadata.get("source", "?")` as the f-string renders it. */
  function SourceLabel(f: Field<Scalar>): string {
    if f.Absent? then "?" else StrOf(f)
  }

  /** Python truthiness of `d.metadata.get("page")`: a missing or None page,
      0 and "" are false. */
  predicate Truthy(f: Field<Scalar>) {
    match f
    case Has(Text(s)) => s != ""
    case Has(Number(n)) => n != 0
    case _ => false
  }

  /** The head line of block `i`. */
  function Head(i: nat, d: Doc): string {
    "[" + NatToString(i) + "] " + SourceLabel(d.source) + (if Truthy(d.page) then " p." + StrOf(d.page) else "")
  }

  /** Block `i`: the head line, a newline, then the document text. */
  function Block(i: nat, d: Doc): string {
    Head(i, d) + "\n" + d.content
  }

  /** The blocks of the documents, numbered from 1. */
  function Blocks(docs: seq<Doc>): (r: seq<string>)
    ensures |r| == |docs|
  {
    if |docs| == 0 then [] else Blocks(docs[..|docs| - 1]) + [Block(|docs|, docs[|docs| - 1])]
  }

  const Separator := "\n\n---\n\n"
  const NoContext := "(no context)"

  /** `_format_ctx(docs)` */
  function FormatCtx(docs: seq<Doc>): string {
    if |docs| == 0 then NoContext else Join(Separator, Blocks(docs))
  }

  /** The loop of `_format_ctx`. */
  method FormatContext(docs: seq<Doc>) returns (r: string)
    ensures r == FormatCtx(docs)
  {
    var parts: seq<string> := [];
    for i := 0 to |docs|
      invariant parts == Blocks(docs[..i])
    {
      assert docs[..i + 1][..i] == docs[..i];
      var d := docs[i];
      var head := "[" + NatToString(i + 1) + "] " + SourceLabel(d.source)
                  + (if Truthy(d.page) then " p." + StrOf(d.page) else "");
      parts := parts + [head + "\n" + d.content];
    }
    assert docs[..|docs|] == docs;
    r := if |parts| > 0 then Join(Separator, parts) else NoContext;
  }

  /** Block `k` (0-based) of the list is the document at `k`, numbered k + 1. */
  lemma {:induction false} BlocksMeaning(docs: seq<Doc>)
    ensures forall k :: 0 <= k < |docs| ==> Blocks(docs)[k] == Block(k + 1, docs[k])
    decreases |docs|
  {
    if |docs| > 0 {
      var init := docs[..|docs| - 1];
      BlocksMeaning(init);
      assert forall k :: 0 <= k < |init| ==> init[k] == docs[k];
    }
  }

  /** A block's head is "[i] " and the source label, with " p.<page>"
      only for a truthy page; a missing, None, 0 or "" page adds nothing. */
  lemma BlockShape(i: nat, d: Doc)
    ensures StartsWith(Block(i, d), "[" + NatToString(i) + "] " + SourceLabel(d.source))
    ensures !Truthy(d.page) ==> Block(i, d) == "[" + NatToString(i) + "] " + SourceLabel(d.source) + "\n" + d.content
    ensures d.page == Has(Number(0)) || d.page == Has(Text("")) || d.page.Null? || d.page.Absent? ==> !Truthy(d.page)
    ensures d.source.Absent? ==> SourceLabel(d.source) == "?"
  {
    var h := "[" + NatToString(i) + "] " + SourceLabel(d.source);
    var tail := (if Truthy(d.page) then " p." + StrOf(d.page) else "") + "\n" + d.content;
    assert Block(i, d) == h + tail;
    assert (h + tail)[..|h|] == h;
    if !Truthy(d.page) {
      assert h + "" == h;
    }
  }

  lemma {:induction false} JoinSnoc(sep: string, parts: seq<string>, x: string)
    requires |parts| > 0
    ensures Join(sep, parts + [x]) == Join(sep, parts) + sep + x
    decreases |parts|
  {
    if |parts| > 1 {
      JoinSnoc(sep, parts[1..], x);
      assert (parts + [x])[1..] == parts[1..] + [x];
    } else {
      assert (parts + [x])[1..] == [x];
    }
  }

  lemma JoinStartsWithFirst(sep: string, parts: seq<string>)
    requires |parts| > 0
    ensures StartsWith(Join(sep, parts), parts[0])
  {
    if |parts| > 1 {
      assert Join(sep, parts) == parts[0] + (sep + Join(sep, parts[1..]));
    }
  }

  /** Only an empty document list gives "(no context)"; otherwise the text
      starts with block 1, and a further document adds the separator and its
      block at the end, so blocks appear in input order. */
  lemma FormatCtxMeaning(docs: seq<Doc>, d: Doc)
    ensures FormatCtx(docs) == NoContext <==> docs == []
    ensures FormatCtx([d]) == Block(1, d)
    ensures docs != [] ==> StartsWith(FormatCtx(docs), Block(1, docs[0]))
    ensures docs != [] ==> FormatCtx(docs + [d]) == FormatCtx(docs) + Separator + Block(|docs| + 1, d)
  {
    assert Blocks([d]) == [Block(1, d)] by {
      assert [d][..0] == [];
    }
    if docs != [] {
      BlocksMeaning(docs);
      JoinStartsWithFirst(Separator, Blocks(docs));
      assert Blocks(docs)[0] == Block(1, docs[0]);
      var b := Block(1, docs[0]);
      assert b[0] == '[';
      assert FormatCtx(docs)[0] == b[0];
      assert NoContext[0] == '(';
      assert (docs + [d])[..|docs|] == docs;
      JoinSnoc(Separator, Blocks(docs), Block(|docs| + 1, d));
    }
  }

  /** One entry of `sources`. */
  datatype SourceRef = SourceRef(id: nat, source: Option<Scalar>, page: Option<Scalar>)

  /** `sources` in `generate_node`. */
  function Sources(docs: seq<Doc>): (r: seq<SourceRef>)
    ensures |r| == |docs|
  {
    seq(|docs|, k requires 0 <= k < |docs| => SourceRef(k + 1, docs[k].source.Get(), docs[k].page.Get()))
  }

  /** Source entry `k` has id k + 1, so ids ascend strictly; a missing or
      None source or page gives None and a present one is kept. */
  lemma SourcesIds(docs: seq<Doc>)
    ensures forall k :: 0 <= k < |docs| ==> Sources(docs)[k].id == k + 1
    ensures forall j, k :: 0 <= j < k < |docs| ==> Sources(docs)[j].id < Sources(docs)[k].id
    ensures forall k :: 0 <= k < |docs| ==> (Sources(docs)[k].source.None? <==> !docs[k].source.Has?)
    ensures forall k :: 0 <= k < |docs| && docs[k].page.Has? ==> Sources(docs)[k].page == Some(docs[k].page.value)
  {
  }

  /** The id of source entry `k` is the number of the document's block in
      the context, so a citation "[i]" names the entry with id i. */
  lemma SourcesMatchBlocks(docs: seq<Doc>)
    ensures forall k :: 0 <= k < |docs| ==> Blocks(docs)[k] == Block(Sources(docs)[k].id, docs[k])
  {
    BlocksMeaning(docs);
    SourcesIds(docs);
  }
}
