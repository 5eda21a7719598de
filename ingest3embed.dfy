/** The embedding stage of staged ingestion: where each chunk file's
    embedded copy is written. */
module Ingest3Embed {
  import opened Text
  import opened Paths

  /** `chunk_path.name.replace("_chunks", "")` */
  function EmbedFileName(chunkName: string): string {
    ReplaceAll(chunkName, "_chunks", "")
  }

  /** `embed_dir / chunk_path.name.replace("_chunks", "")` */
  function DefaultOutputPath(chunkPath: Path, embedDir: Path): Path {
    Paths.Join(embedDir, EmbedFileName(Name(chunkPath)))
  }

  /** "<doc>_chunks.jsonl" is written to "<doc>.jsonl" in the embeddings
      directory when "_chunks" occurs in the name only there. */
  lemma DefaultOutputOfChunkFile(doc: string, chunkPath: Path, embedDir: Path)
    requires Name(chunkPath) == doc + "_chunks.jsonl" && '/' !in doc
    requires NoMatchBefore(doc + "_chunks.jsonl", "_chunks", |doc|)
    ensures EmbedFileName(Name(chunkPath)) == doc + ".jsonl"
    ensures DefaultOutputPath(chunkPath, embedDir) == embedDir + [doc + ".jsonl"]
  {
    ReplaceAllSkipsClean(doc, "_chunks.jsonl", "_chunks", "");
    assert "_chunks.jsonl"[..7] == "_chunks" && "_chunks.jsonl"[7..] == ".jsonl";
    assert ReplaceAll(".jsonl", "_chunks", "") == ".jsonl";
    var out := doc + ".jsonl";
    assert out != "" && out != "." by {
      assert |out| >= 6;
    }
    assert '/' !in out by {
      assert forall c :: c in out ==> c in doc || c in ".jsonl";
    }
    JoinName(embedDir, out);
  }

  /** A name that is all "_chunks" has nothing left, and the default
      output is then the embeddings directory itself. */
  lemma DefaultOutputOfBareName(chunkPath: Path, embedDir: Path)
    requires Name(chunkPath) == "_chunks"
    ensures DefaultOutputPath(chunkPath, embedDir) == embedDir
  {
    assert "_chunks"[..7] == "_chunks" && "_chunks"[7..] == "";
    assert EmbedFileName("_chunks") == "";
    JoinEmpty(embedDir);
  }
}
