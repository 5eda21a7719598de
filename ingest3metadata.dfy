/** The metadata stage of staged ingestion: which chunk files it reads and
    where each one's enriched copy is written. Enrichment itself is the
    metadata module's. */
module Ingest3Metadata {
  import opened Text
  import opened Paths

  /** The file name the metadata of a chunk file goes to. */
  function MetadataFileName(chunkName: string): string {
    if EndsWith(chunkName, "_chunks.jsonl") then ReplaceAll(chunkName, "_chunks.jsonl", "_metadata.jsonl")
    else Stem(chunkName) + "_metadata.jsonl"
  }

  /** `_default_output_path(chunk_path, metadata_dir)` */
  function DefaultOutputPath(chunkPath: Path, metadataDir: Path): Path {
    Paths.Join(metadataDir, MetadataFileName(Name(chunkPath)))
  }

  /** The default output is a file directly inside the metadata directory
      whose name ends with "_metadata.jsonl", whatever the input's name. */
  lemma DefaultOutputPathMeaning(chunkPath: Path, metadataDir: Path)
    requires '/' !in Name(chunkPath)
    ensures DefaultOutputPath(chunkPath, metadataDir) == metadataDir + [MetadataFileName(Name(chunkPath))]
    ensures EndsWith(MetadataFileName(Name(chunkPath)), "_metadata.jsonl")
  {
    var name := Name(chunkPath);
    var out := MetadataFileName(name);
    if EndsWith(name, "_chunks.jsonl") {
      UnborderedOfHead("_chunks.jsonl");
      ReplaceAllEndsWith(name, "_chunks.jsonl", "_metadata.jsonl");
      ReplaceAllChars(name, "_chunks.jsonl", "_metadata.jsonl");
    } else {
      StemSuffixSplit(name);
      var stem := Stem(name);
      assert forall c :: c in stem ==> c in name by {
        assert name == stem + Suffix(name);
      }
      assert out[|out| - 15..] == "_metadata.jsonl";
    }
    assert out != "" && out != "." by {
      assert |out| >= 15;
    }
    JoinName(metadataDir, out);
  }

  /** "<doc>_chunks.jsonl" becomes "<doc>_metadata.jsonl" when that ending
      is the name's only "_chunks.jsonl"; any other name keeps its stem. */
  lemma MetadataFileNameCases(doc: string, other: string)
    requires NoMatchBefore(doc + "_chunks.jsonl", "_chunks.jsonl", |doc|)
    requires !EndsWith(other, "_chunks.jsonl")
    ensures MetadataFileName(doc + "_chunks.jsonl") == doc + "_metadata.jsonl"
    ensures MetadataFileName(other) == Stem(other) + "_metadata.jsonl"
  {
    var n := doc + "_chunks.jsonl";
    assert n[|n| - 13..] == "_chunks.jsonl";
    ReplaceEnding(doc, "_chunks.jsonl", "_metadata.jsonl");
  }
}
