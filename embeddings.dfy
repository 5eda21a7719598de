/** Chunk embedding: the text each chunk is embedded from, the one-slot
    cache of the loaded embedding model, and the loop that attaches the
    i-th vector to the i-th chunk. The model loader, the encoder and the
    vector normalisation are parameters. */
module Embeddings {
  import opened Wrappers

  /** The fields of a chunk that embedding reads and writes. */
  datatype EmbedChunk = EmbedChunk(sectionTitle: Option<string>, text: Option<string>,
                                   embedding: Option<seq<real>>)

  /** `"\n".join(part for part in parts if part)` */
  function JoinNonEmpty(parts: seq<string>): string
  {
    if |parts| == 0 then ""
    else
      var rest := JoinNonEmpty(parts[1..]);
      if parts[0] == "" then rest
      else if rest == "" then parts[0]
      else parts[0] + "\n" + rest
  }

  /** `_text_for_embedding(chunk)` */
  function TextForEmbedding(c: EmbedChunk): string {
    var title := if c.sectionTitle.Some? && c.sectionTitle.value != "" then [c.sectionTitle.value] else [];
    JoinNonEmpty(title + [c.text.GetOr("")])
  }

  /** The title, a newline and the text when both are non-empty; otherwise
      whichever of the two is non-empty, or the empty string. */
  lemma TextForEmbeddingCases(c: EmbedChunk)
    ensures var title, text := c.sectionTitle.GetOr(""), c.text.GetOr("");
            TextForEmbedding(c) == if title == "" then text
                                   else if text == "" then title
                                   else title + "\n" + text
  {
    var title, text := c.sectionTitle.GetOr(""), c.text.GetOr("");
    assert [text][1..] == [];
    assert JoinNonEmpty([text]) == text;
    if title != "" {
      assert ([title] + [text])[1..] == [text];
    } else {
      var none: seq<string> := [];
      assert none + [text] == [text];
    }
  }

  /** `[_text_for_embedding(c) for c in chunks]` */
  function Texts(cs: seq<EmbedChunk>): (r: seq<string>)
    ensures |r| == |cs|
  {
    seq(|cs|, i requires 0 <= i < |cs| => TextForEmbedding(cs[i]))
  }

  /** The chunks after the attach loop has gone through the vectors `e`:
      chunk i holds vector i, and chunks beyond the last vector are as they
      were. */
  function Attached(cs: seq<EmbedChunk>, e: seq<seq<real>>): seq<EmbedChunk> {
    seq(|cs|, i requires 0 <= i < |cs| => if i < |e| then cs[i].(embedding := Some(e[i])) else cs[i])
  }

  /** With one vector per chunk, every chunk gets its own vector; only the
      embedding changes, so the texts embedded are the same afterwards. */
  lemma AttachedMeaning(cs: seq<EmbedChunk>, e: seq<seq<real>>)
    ensures |Attached(cs, e)| == |cs|
    ensures |e| >= |cs| ==> forall i :: 0 <= i < |cs| ==> Attached(cs, e)[i].embedding == Some(e[i])
    ensures forall i :: 0 <= i < |cs| ==>
              Attached(cs, e)[i].sectionTitle == cs[i].sectionTitle && Attached(cs, e)[i].text == cs[i].text
    ensures Texts(Attached(cs, e)) == Texts(cs)
  {
    assert forall i :: 0 <= i < |cs| ==> TextForEmbedding(Attached(cs, e)[i]) == TextForEmbedding(cs[i]);
  }

  /** Attaching the same vectors again changes nothing. */
  lemma AttachedIdempotent(cs: seq<EmbedChunk>, e: seq<seq<real>>)
    ensures Attached(Attached(cs, e), e) == Attached(cs, e)
  {
  }

  /** Only the vectors up to the number of chunks are ever attached. */
  lemma AttachedPrefix(cs: seq<EmbedChunk>, e: seq<seq<real>>)
    requires |cs| <= |e|
    ensures Attached(cs, e[..|cs|]) == Attached(cs, e)
  {
  }

  /** The one-slot model cache `_MODEL_CACHE`. */
  class ModelCache<M> {
    var model: Option<M>
    var name: Option<string>
    var device: Option<string>

    constructor()
      ensures model == None && name == None && device == None
    {
      model := None;
      name := None;
      device := None;
    }

    /** The cache holds a model loaded under this name on this device. */
    predicate Holds(modelName: Option<string>, dev: string)
      reads this
    {
      model.Some? && name == modelName && device == Some(dev)
    }

    /** `_get_model(model_name, device)`: the cached model when it was
        loaded under the same name on the same device, otherwise a fresh
        load that then fills the cache; a load that raises leaves the cache
        as it was. */
    method GetModel(modelName: Option<string>, dev: string,
                    load: (Option<string>, string) -> Result<M, string>) returns (r: Result<M, string>, loaded: bool)
      modifies this
      ensures loaded <==> !old(Holds(modelName, dev))
      ensures !loaded ==> r == Ok(old(model).value) && model == old(model) && name == old(name)
                          && device == old(device)
      ensures loaded ==> r == load(modelName, dev)
      ensures loaded && r.Err? ==> model == old(model) && name == old(name) && device == old(device)
      ensures r.Ok? ==> Holds(modelName, dev) && model == Some(r.value)
    {
      if Holds(modelName, dev) {
        return Ok(model.value), false;
      }
      loaded := true;
      r := load(modelName, dev);
      if r.Ok? {
        model, name, device := Some(r.value), modelName, Some(dev);
      }
    }
  }

  /** Two calls in a row with the same name and device load at most once:
      a second call only happens when the first returned a model, and then
      it finds that model in the cache. */
  method ConsecutiveLoads<M>(cache: ModelCache<M>, modelName: Option<string>, dev: string,
                             load: (Option<string>, string) -> Result<M, string>) returns (loads: nat)
    modifies cache
    ensures loads <= 1
    ensures loads == 0 <==> old(cache.Holds(modelName, dev))
  {
    var first, loadedFirst := cache.GetModel(modelName, dev, load);
    loads := if loadedFirst then 1 else 0;
    if first.Ok? {
      var second, loadedSecond := cache.GetModel(modelName, dev, load);
      assert !loadedSecond && second == first;
      loads := loads + if loadedSecond then 1 else 0;
    }
  }

  /** The keys of the `embedding` configuration section that embedding reads. */
  datatype EmbeddingSection = EmbeddingSection(modelName: Field<string>, batchSize: Field<int>,
                                               normalizeEmbeddings: Field<bool>)

  /** `bool(esec.get("normalize_embeddings", True))` */
  function NormalizeOn(esec: EmbeddingSection): bool {
    match esec.normalizeEmbeddings
    case Absent => true
    case Null => false
    case Has(b) => b
  }

  function ModelName(esec: EmbeddingSection): Option<string> {
    esec.modelName.GetOrNull("Qwen/Qwen3-Embedding-4B")
  }

  function Device(cuda: bool): string {
    if cuda then "cuda" else "cpu"
  }

  /** The encoder's vectors, each divided by its norm when normalisation is on. */
  function Vectors(encoded: seq<seq<real>>, normalize: bool, norm: seq<real> -> seq<real>): (r: seq<seq<real>>)
    ensures |r| == |encoded|
  {
    if normalize then seq(|encoded|, i requires 0 <= i < |encoded| => norm(encoded[i])) else encoded
  }

  /** One turn of the attach loop. */
  lemma AttachedStep(cs: seq<EmbedChunk>, e: seq<seq<real>>, i: nat)
    requires i < |e| && i < |cs|
    ensures Attached(cs, e[..i + 1]) == Attached(cs, e[..i])[i := cs[i].(embedding := Some(e[i]))]
  {
  }

  /** `generate_embeddings(chunks)`, given the `embedding` section, whether
      CUDA is available, the model cache, the loader, the encoder (model,
      texts, batch size, device) and the normalisation. The chunks are
      updated in place and also returned. `int(None)` raises before anything
      else happens; a failing load leaves the chunks alone; otherwise every
      chunk with a vector gets it, and the call raises `IndexError` when
      there are more vectors than chunks or no vector at all. */
  method GenerateEmbeddings<M>(chunks: array<EmbedChunk>, esec: EmbeddingSection, cuda: bool,
                               cache: ModelCache<M>, load: (Option<string>, string) -> Result<M, string>,
                               encode: (M, seq<string>, int, string) -> seq<seq<real>>,
                               norm: seq<real> -> seq<real>) returns (r: Result<seq<EmbedChunk>, string>)
    modifies chunks, cache
    ensures esec.batchSize.Null? ==>
              r == Err("TypeError") && chunks[..] == old(chunks[..]) && unchanged(cache)
    ensures !esec.batchSize.Null? && !old(cache.Holds(ModelName(esec), Device(cuda)))
            && load(ModelName(esec), Device(cuda)).Err? ==>
              r.Err? && chunks[..] == old(chunks[..])
              && cache.model == old(cache.model) && cache.name == old(cache.name) && cache.device == old(cache.device)
    ensures !esec.batchSize.Null? && (old(cache.Holds(ModelName(esec), Device(cuda)))
                                     || load(ModelName(esec), Device(cuda)).Ok?) ==>
              cache.Holds(ModelName(esec), Device(cuda))
              && var e := Vectors(encode(cache.model.value, Texts(old(chunks[..])), esec.batchSize.GetOrNull(8).value,
                                         Device(cuda)),
                                  NormalizeOn(esec), norm);
                 chunks[..] == Attached(old(chunks[..]), e)
                 && (r.Ok? <==> 0 < |e| <= chunks.Length)
                 && (r.Ok? ==> r.value == chunks[..])
  {
    if esec.batchSize.Null? {
      return Err("TypeError");
    }
    var batchSize := esec.batchSize.GetOrNull(8).value;
    var normalize := NormalizeOn(esec);
    var dev := Device(cuda);
    var loaded, _ := cache.GetModel(ModelName(esec), dev, load);
    if loaded.Err? {
      return Err(loaded.error);
    }
    ghost var before := chunks[..];
    var e := Vectors(encode(loaded.value, Texts(chunks[..]), batchSize, dev), normalize, norm);
    var i := 0;
    while i < |e|
      invariant i <= |e| && i <= chunks.Length
      invariant chunks[..] == Attached(before, e[..i])
      modifies chunks
    {
      if i >= chunks.Length {
        AttachedPrefix(before, e);
        assert e[..i] == e[..|before|];
        return Err("IndexError");
      }
      AttachedStep(before, e, i);
      chunks[i] := chunks[i].(embedding := Some(e[i]));
      i := i + 1;
    }
    assert e[..i] == e;
    if |e| == 0 {
      return Err("IndexError");
    }
    r := Ok(chunks[..]);
  }
}
