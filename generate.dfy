/** Answer generation: the prompt context built from the retrieved hits, the
    empty-hits sentinel, the provider check and the citation scan over the
    model's answer. The prompt renderer and the chat model are parameters. */
module Generate {
  import opened Wrappers
  import opened Text
  import Sorting
  import opened Chat

  /** The fields of a retrieved hit the generator reads; a missing key is None. */
  datatype Passage = Passage(
    docId: Option<string>,
    pageStart: Option<int>,
    pageEnd: Option<int>,
    text: Option<string>)

  /** One numbered entry of the prompt context. */
  datatype ContextEntry = ContextEntry(
    number: nat,
    docId: Option<string>,
    pageStart: Option<int>,
    pageEnd: Option<int>,
    text: string)

  /** `(k.get("text") or "").strip()` */
  function CleanText(p: Passage): string {
    Strip(p.text.GetOr(""))
  }

  predicate NonBlank(p: Passage) {
    CleanText(p) != ""
  }

  /** `list(enumerate(ps, start=1))` over the projected passages. */
  function Numbered(ps: seq<Passage>): (r: seq<ContextEntry>)
    ensures |r| == |ps|
  {
    seq(|ps|, i requires 0 <= i < |ps| =>
      ContextEntry(i + 1, ps[i].docId, ps[i].pageStart, ps[i].pageEnd, CleanText(ps[i])))
  }

  /** The context `_build_messages` renders: the passages with non-blank text,
      in their original order, numbered from 1. */
  function PromptContext(topk: seq<Passage>): (r: seq<ContextEntry>)
    ensures |r| <= |topk|
    ensures forall i :: 0 <= i < |r| ==>
              r[i].number == i + 1 && r[i].text != "" && NoSpaceAround(r[i].text)
  {
    var kept := Sorting.Filter(topk, NonBlank);
    assert forall i :: 0 <= i < |kept| ==> kept[i] in kept;
    Numbered(kept)
  }

  /** The entry a passage becomes when it is number `n` of the context. */
  function EntryOf(n: nat, p: Passage): ContextEntry {
    ContextEntry(n, p.docId, p.pageStart, p.pageEnd, CleanText(p))
  }

  /** How many passages before position `j` have non-blank text. */
  function KeptBefore(topk: seq<Passage>, j: nat): nat
    requires j <= |topk|
  {
    |Sorting.Filter(topk[..j], NonBlank)|
  }

  /** Every passage with non-blank text is kept, with its own fields, as entry
      number 1 + the count of non-blank passages before it, so the kept
      passages keep their order. */
  lemma PromptContextKeeps(topk: seq<Passage>)
    ensures forall j :: 0 <= j < |topk| && NonBlank(topk[j]) ==>
              KeptBefore(topk, j) < |PromptContext(topk)|
              && PromptContext(topk)[KeptBefore(topk, j)] == EntryOf(KeptBefore(topk, j) + 1, topk[j])
    ensures forall j, k :: 0 <= j < k < |topk| && NonBlank(topk[j]) ==> KeptBefore(topk, j) < KeptBefore(topk, k)
  {
    forall j | 0 <= j < |topk| && NonBlank(topk[j])
      ensures KeptBefore(topk, j) < |PromptContext(topk)|
              && PromptContext(topk)[KeptBefore(topk, j)] == EntryOf(KeptBefore(topk, j) + 1, topk[j])
    {
      PromptEntryAt(topk, j);
    }
    forall j, k | 0 <= j < k < |topk| && NonBlank(topk[j])
      ensures KeptBefore(topk, j) < KeptBefore(topk, k)
    {
      KeptBeforeGrows(topk, j, k);
    }
  }

  lemma PromptEntryAt(topk: seq<Passage>, j: nat)
    requires j < |topk| && NonBlank(topk[j])
    ensures KeptBefore(topk, j) < |PromptContext(topk)|
    ensures PromptContext(topk)[KeptBefore(topk, j)] == EntryOf(KeptBefore(topk, j) + 1, topk[j])
  {
    Sorting.FilterRank(topk, NonBlank, j);
  }

  lemma KeptBeforeGrows(topk: seq<Passage>, j: nat, k: nat)
    requires j < k <= |topk| && NonBlank(topk[j])
    ensures KeptBefore(topk, j) < KeptBefore(topk, k)
  {
    Sorting.FilterRank(topk[..k], NonBlank, j);
    assert topk[..k][..j] == topk[..j];
  }

  /** Entry `i` of the context is the passage at `j`, which has non-blank text
      and `i` non-blank passages before it. */
  predicate EntryFrom(topk: seq<Passage>, i: nat, j: nat) {
    j < |topk| && NonBlank(topk[j]) && KeptBefore(topk, j) == i
    && i < |PromptContext(topk)| && PromptContext(topk)[i] == EntryOf(i + 1, topk[j])
  }

  /** Every entry of the context is a passage with non-blank text, at its rank. */
  lemma PromptContextOnto(topk: seq<Passage>)
    ensures forall i: nat :: i < |PromptContext(topk)| ==>
              PromptContext(topk)[i].number == i + 1 && exists j: nat :: EntryFrom(topk, i, j)
  {
    forall i: nat | i < |PromptContext(topk)|
      ensures PromptContext(topk)[i].number == i + 1 && exists j: nat :: EntryFrom(topk, i, j)
    {
      PromptEntrySource(topk, i);
    }
  }

  lemma PromptEntrySource(topk: seq<Passage>, i: nat)
    requires i < |PromptContext(topk)|
    ensures exists j: nat :: EntryFrom(topk, i, j)
  {
    Sorting.FilterRankOnto(topk, NonBlank, i);
    var j :| 0 <= j < |topk| && NonBlank(topk[j]) && |Sorting.Filter(topk[..j], NonBlank)| == i;
    Sorting.FilterRank(topk, NonBlank, j);
    assert EntryFrom(topk, i, j);
  }

  /** The context numbers the passages 1..len(topk), as the citation scan
      does, exactly when no passage is blank; then entry `i` is passage `i`. */
  lemma ContextMatchesCitations(topk: seq<Passage>)
    ensures |PromptContext(topk)| == |topk| <==> forall i :: 0 <= i < |topk| ==> NonBlank(topk[i])
    ensures (forall i :: 0 <= i < |topk| ==> NonBlank(topk[i])) ==>
              forall i :: 0 <= i < |topk| ==>
                var e := PromptContext(topk)[i];
                e.number == i + 1 && e.docId == topk[i].docId && e.pageStart == topk[i].pageStart
                && e.pageEnd == topk[i].pageEnd && e.text == CleanText(topk[i])
  {
    Sorting.FilterKeepsAll(topk, NonBlank);
  }

  /** `_build_messages(question, topk)`, given the prompt and its renderer. */
  function BuildMessages(prompt: Prompt, render: (string, string, seq<ContextEntry>) -> string,
                         question: string, topk: seq<Passage>): seq<Message>
  {
    [Message("system", prompt.system),
     Message("user", render(prompt.user, question, PromptContext(topk)))]
  }

  /** The marker `[i]` by which an answer cites passage `i`. */
  function Marker(i: nat): string {
    "[" + NatToString(i) + "]"
  }

  /** `[i for i in range(1, n + 1) if f"[{i}]" in answer]` */
  function Citations(answer: string, n: nat): (r: seq<nat>)
    ensures forall k :: 0 <= k < |r| ==> 1 <= r[k] <= n
    ensures forall j, k :: 0 <= j < k < |r| ==> r[j] < r[k]
    ensures forall i: nat :: i in r <==> 1 <= i <= n && Contains(answer, Marker(i))
  {
    if n == 0 then []
    else Citations(answer, n - 1) + (if Contains(answer, Marker(n)) then [n] else [])
  }

  /** The `generate` section of the configuration. */
  datatype GenerateSection = GenerateSection(provider: Field<string>, model: Field<string>)

  /** The dictionary `generator` returns. */
  datatype Answer = Answer(answer: string, source: seq<nat>, used: nat)

  const NoAnswer := Answer("No Answer", [], 0)

  /** `generator(question, topk)`, given the configuration section, the
      prompt, its renderer and the chat model (which receives the model
      name and the messages). */
  function Generator(question: string, topk: seq<Passage>, gsec: GenerateSection, prompt: Prompt,
                     render: (string, string, seq<ContextEntry>) -> string,
                     chat: (Option<string>, seq<Message>) -> string): (r: Result<Answer, string>)
    ensures r == Ok(NoAnswer) <==> |topk| == 0
    ensures r.Err? <==> |topk| > 0 && !IsOllama(gsec.provider)
    ensures r.Ok? && |topk| > 0 ==>
              r.value.answer == chat(gsec.model.GetOrNull("qwen2.5:7b-instruct"),
                                     BuildMessages(prompt, render, question, topk))
              && r.value.used == |topk|
              && (forall k :: 0 <= k < |r.value.source| ==> 1 <= r.value.source[k] <= |topk|)
              && (forall j, k :: 0 <= j < k < |r.value.source| ==> r.value.source[j] < r.value.source[k])
              && (forall i: nat :: i in r.value.source <==>
                    1 <= i <= |topk| && Contains(r.value.answer, Marker(i)))
  {
    if |topk| == 0 then Ok(NoAnswer)
    else
      var model := gsec.model.GetOrNull("qwen2.5:7b-instruct");
      var messages := BuildMessages(prompt, render, question, topk);
      if IsOllama(gsec.provider) then
        var answer := chat(model, messages);
        Ok(Answer(answer, Citations(answer, |topk|), |topk|))
      else
        Err("NotImplementedError")
  }
}
