/** The embedding stage that prefers enriched metadata files: which files it
    reads, where each embedded copy goes, and the loop that skips files
    without rows. Reading the files and embedding are parameters. */
module Ingest4Embed {
  import opened Wrappers
  import opened Text
  import opened Lists
  import opened Paths
  import opened JsonlScan
  import Sorting

  /** `_gather_input_files(single, chunks_dir, metadata_dir, metadata_enabled)` */
  function GatherInputFiles(single: Option<Path>, chunksExists: bool, chunkEntries: seq<Entry>,
                            metadataExists: bool, metadataEntries: seq<Entry>,
                            metadataEnabled: bool): Result<seq<Path>, string> {
    if single.Some? then Ok([single.value])
    else if metadataEnabled && metadataExists && |Scan(metadataEntries, MetadataEnding)| > 0 then
      Ok(Scan(metadataEntries, MetadataEnding))
    else if !chunksExists then Err("FileNotFoundError: chunks directory not found")
    else
      var files := Scan(chunkEntries, ChunksEnding);
      if |files| == 0 then Err("FileNotFoundError: no *_chunks.jsonl files found")
      else Ok(files)
  }

  /** An explicit file wins; then the metadata files when metadata is on,
      its directory exists and holds some; otherwise the chunk files, as the
      chunk-only stage gathers them. */
  lemma GatherInputFilesPrecedence(single: Option<Path>, chunksExists: bool, chunkEntries: seq<Entry>,
                                   metadataExists: bool, metadataEntries: seq<Entry>, metadataEnabled: bool)
    ensures single.Some? ==>
              GatherInputFiles(single, chunksExists, chunkEntries, metadataExists, metadataEntries, metadataEnabled)
              == Ok([single.value])
    ensures single.None? && metadataEnabled && metadataExists && Scan(metadataEntries, MetadataEnding) != [] ==>
              GatherInputFiles(single, chunksExists, chunkEntries, metadataExists, metadataEntries, metadataEnabled)
              == Ok(Scan(metadataEntries, MetadataEnding))
    ensures single.None? && !(metadataEnabled && metadataExists && Scan(metadataEntries, MetadataEnding) != []) ==>
              GatherInputFiles(single, chunksExists, chunkEntries, metadataExists, metadataEntries, metadataEnabled)
              == GatherChunkFiles(None, chunksExists, chunkEntries)
    ensures GatherInputFiles(single, chunksExists, chunkEntries, metadataExists, metadataEntries, metadataEnabled).Ok? ==>
              GatherInputFiles(single, chunksExists, chunkEntries, metadataExists, metadataEntries, metadataEnabled).value != []
  {
  }

  const MetadataEnding := "_metadata.jsonl"
  const ChunksEnding := "_chunks.jsonl"
  const JsonlExt := ".jsonl"

  /** The output file name: "_metadata.jsonl" or else "_chunks.jsonl"
      replaced by ".jsonl"; any other name is kept. */
  function OutputName(name: string): string {
    if EndsWith(name, MetadataEnding) then ReplaceAll(name, MetadataEnding, JsonlExt)
    else if EndsWith(name, ChunksEnding) then ReplaceAll(name, ChunksEnding, JsonlExt)
    else name
  }

  lemma EndingsUnbordered()
    ensures Unbordered(MetadataEnding) && Unbordered(ChunksEnding)
  {
    UnborderedOfHead(MetadataEnding);
    UnborderedOfHead(ChunksEnding);
  }

  /** A name with either ending keeps ending in ".jsonl"; other names are
      kept. */
  lemma OutputNameKept(name: string)
    ensures !EndsWith(name, MetadataEnding) && !EndsWith(name, ChunksEnding) ==> OutputName(name) == name
    ensures EndsWith(name, MetadataEnding) || EndsWith(name, ChunksEnding) ==> EndsWith(OutputName(name), JsonlExt)
  {
    EndingsUnbordered();
    if EndsWith(name, MetadataEnding) {
      ReplaceAllEndsWith(name, MetadataEnding, JsonlExt);
    } else if EndsWith(name, ChunksEnding) {
      ReplaceAllEndsWith(name, ChunksEnding, JsonlExt);
    }
  }

  /** "<doc>_metadata.jsonl" and "<doc>_chunks.jsonl" both go to
      "<doc>.jsonl" when the ending occurs only there. */
  lemma OutputNameOfDoc(doc: string)
    ensures NoMatchBefore(doc + MetadataEnding, MetadataEnding, |doc|) ==>
              OutputName(doc + MetadataEnding) == doc + JsonlExt
    ensures NoMatchBefore(doc + ChunksEnding, ChunksEnding, |doc|) ==>
              OutputName(doc + ChunksEnding) == doc + JsonlExt
  {
    var m := doc + MetadataEnding;
    assert m[|m| - 15..] == MetadataEnding;
    if NoMatchBefore(m, MetadataEnding, |doc|) {
      ReplaceEnding(doc, MetadataEnding, JsonlExt);
    }
    var c := doc + ChunksEnding;
    assert c[|c| - 13..] == ChunksEnding;
    if NoMatchBefore(c, ChunksEnding, |doc|) {
      assert !EndsWith(c, MetadataEnding) by {
        if |c| >= 15 {
          assert c[|c| - 15..][2] == c[|c| - 13] == '_';
        }
      }
      ReplaceEnding(doc, ChunksEnding, JsonlExt);
    }
  }

  const MissingFile := "FileNotFoundError: chunks file not found"

  /** One output written: where, and how many embedded rows. */
  datatype Write = Write(path: Path, rows: nat)

  /** Where a file's embeddings go: the explicit output, or the rewritten
      name in the embeddings directory. */
  function OutPath(file: Path, output: Option<Path>, embedDir: Path): Path {
    if output.Some? then output.value else Paths.Join(embedDir, OutputName(Name(file)))
  }

  /** The writes of the loop over the input files and how it ends: a
      missing file stops it with `FileNotFoundError`, a file without rows is
      skipped, every other file is written. */
  function Writes(files: seq<Path>, exists_: Path -> bool, rowsOf: Path -> nat,
                  output: Option<Path>, embedDir: Path): (seq<Write>, Option<string>)
  {
    if |files| == 0 then ([], None)
    else if !exists_(files[0]) then ([], Some(MissingFile))
    else
      var rest := Writes(files[1..], exists_, rowsOf, output, embedDir);
      if rowsOf(files[0]) == 0 then rest
      else ([Write(OutPath(files[0], output, embedDir), rowsOf(files[0]))] + rest.0, rest.1)
  }

  /** The loop invariant of `EmbedFiles`: the writes so far, then those of
      the files still to go, make up all the writes. */
  predicate LoopInv(files: seq<Path>, i: nat, writes: seq<Write>, exists_: Path -> bool, rowsOf: Path -> nat,
                    output: Option<Path>, embedDir: Path)
    requires i <= |files|
  {
    Writes(files, exists_, rowsOf, output, embedDir)
    == (writes + Writes(files[i..], exists_, rowsOf, output, embedDir).0,
        Writes(files[i..], exists_, rowsOf, output, embedDir).1)
  }

  lemma LoopStart(files: seq<Path>, exists_: Path -> bool, rowsOf: Path -> nat, output: Option<Path>, embedDir: Path)
    ensures LoopInv(files, 0, [], exists_, rowsOf, output, embedDir)
  {
    assert files[0..] == files;
    var all := Writes(files, exists_, rowsOf, output, embedDir);
    var none: seq<Write> := [];
    assert none + all.0 == all.0;
    assert all == (none + all.0, all.1);
  }

  lemma LoopMissing(files: seq<Path>, i: nat, writes: seq<Write>, exists_: Path -> bool, rowsOf: Path -> nat,
                    output: Option<Path>, embedDir: Path)
    requires i < |files| && LoopInv(files, i, writes, exists_, rowsOf, output, embedDir) && !exists_(files[i])
    ensures Writes(files, exists_, rowsOf, output, embedDir) == (writes, Some(MissingFile))
  {
    assert writes + [] == writes;
  }

  lemma LoopSkip(files: seq<Path>, i: nat, writes: seq<Write>, exists_: Path -> bool, rowsOf: Path -> nat,
                 output: Option<Path>, embedDir: Path)
    requires i < |files| && LoopInv(files, i, writes, exists_, rowsOf, output, embedDir)
    requires exists_(files[i]) && rowsOf(files[i]) == 0
    ensures LoopInv(files, i + 1, writes, exists_, rowsOf, output, embedDir)
  {
    assert files[i..][1..] == files[i + 1..];
  }

  lemma LoopWrite(files: seq<Path>, i: nat, writes: seq<Write>, exists_: Path -> bool, rowsOf: Path -> nat,
                  output: Option<Path>, embedDir: Path)
    requires i < |files| && LoopInv(files, i, writes, exists_, rowsOf, output, embedDir)
    requires exists_(files[i]) && rowsOf(files[i]) > 0
    ensures LoopInv(files, i + 1, writes + [Write(OutPath(files[i], output, embedDir), rowsOf(files[i]))],
                    exists_, rowsOf, output, embedDir)
  {
    assert files[i..][1..] == files[i + 1..];
    var w := Write(OutPath(files[i], output, embedDir), rowsOf(files[i]));
    var rest := Writes(files[i + 1..], exists_, rowsOf, output, embedDir).0;
    assert writes + ([w] + rest) == (writes + [w]) + rest;
  }

  lemma LoopEnd(files: seq<Path>, writes: seq<Write>, exists_: Path -> bool, rowsOf: Path -> nat,
                output: Option<Path>, embedDir: Path)
    requires LoopInv(files, |files|, writes, exists_, rowsOf, output, embedDir)
    ensures Writes(files, exists_, rowsOf, output, embedDir) == (writes, None)
  {
    assert files[|files|..] == [];
    assert writes + [] == writes;
  }

  /** The loop of `main` over the input files. */
  method EmbedFiles(files: seq<Path>, exists_: Path -> bool, rowsOf: Path -> nat,
                    output: Option<Path>, embedDir: Path) returns (writes: seq<Write>, err: Option<string>)
    ensures (writes, err) == Writes(files, exists_, rowsOf, output, embedDir)
  {
    writes := [];
    LoopStart(files, exists_, rowsOf, output, embedDir);
    var i := 0;
    while i < |files|
      invariant i <= |files|
      invariant LoopInv(files, i, writes, exists_, rowsOf, output, embedDir)
    {
      var f := files[i];
      if !exists_(f) {
        LoopMissing(files, i, writes, exists_, rowsOf, output, embedDir);
        return writes, Some(MissingFile);
      }
      var n := rowsOf(f);
      if n == 0 {
        LoopSkip(files, i, writes, exists_, rowsOf, output, embedDir);
        i := i + 1;
        continue;
      }
      LoopWrite(files, i, writes, exists_, rowsOf, output, embedDir);
      writes := writes + [Write(OutPath(f, output, embedDir), n)];
      i := i + 1;
    }
    LoopEnd(files, writes, exists_, rowsOf, output, embedDir);
    err := None;
  }

  predicate HasRows(rowsOf: Path -> nat, f: Path) {
    rowsOf(f) > 0
  }

  function NonEmptyWith(rowsOf: Path -> nat): Path -> bool {
    f => HasRows(rowsOf, f)
  }

  function WriteOf(rowsOf: Path -> nat, output: Option<Path>, embedDir: Path): Path -> Write {
    f => Write(OutPath(f, output, embedDir), rowsOf(f))
  }

  /** The loop fails exactly when some input file is missing. */
  lemma {:induction false} WritesFailure(files: seq<Path>, exists_: Path -> bool, rowsOf: Path -> nat,
                                         output: Option<Path>, embedDir: Path)
    ensures Writes(files, exists_, rowsOf, output, embedDir).1.Some? <==>
              exists k :: 0 <= k < |files| && !exists_(files[k])
    decreases |files|
  {
    if |files| > 0 && exists_(files[0]) {
      var rest := files[1..];
      WritesFailure(rest, exists_, rowsOf, output, embedDir);
      forall k | 0 <= k < |files| && !exists_(files[k])
        ensures exists j :: 0 <= j < |rest| && !exists_(rest[j])
      {
        assert rest[k - 1] == files[k];
      }
      forall j | 0 <= j < |rest| && !exists_(rest[j])
        ensures exists k :: 0 <= k < |files| && !exists_(files[k])
      {
        assert files[j + 1] == rest[j];
      }
    }
  }

  /** No write is empty: every written file had rows, and wrote as many. */
  lemma {:induction false} WritesNonEmpty(files: seq<Path>, exists_: Path -> bool, rowsOf: Path -> nat,
                                          output: Option<Path>, embedDir: Path)
    ensures forall w :: w in Writes(files, exists_, rowsOf, output, embedDir).0 ==> w.rows > 0
    decreases |files|
  {
    if |files| > 0 && exists_(files[0]) {
      WritesNonEmpty(files[1..], exists_, rowsOf, output, embedDir);
    }
  }

  /** When no file is missing, each file with rows is written once, in
      order, to its output path with its row count, and files without rows
      are not written. */
  lemma {:induction false} WritesComplete(files: seq<Path>, exists_: Path -> bool, rowsOf: Path -> nat,
                                          output: Option<Path>, embedDir: Path)
    requires forall k :: 0 <= k < |files| ==> exists_(files[k])
    ensures Writes(files, exists_, rowsOf, output, embedDir)
            == (Map(Sorting.Filter(files, NonEmptyWith(rowsOf)), WriteOf(rowsOf, output, embedDir)), None)
    decreases |files|
  {
    if |files| > 0 {
      var rest := files[1..];
      assert forall k :: 0 <= k < |rest| ==> rest[k] == files[k + 1];
      WritesComplete(rest, exists_, rowsOf, output, embedDir);
      var w := WriteOf(rowsOf, output, embedDir);
      var kept := Sorting.Filter(rest, NonEmptyWith(rowsOf));
      if HasRows(rowsOf, files[0]) {
        assert Sorting.Filter(files, NonEmptyWith(rowsOf)) == [files[0]] + kept;
        MapAppend([files[0]], kept, w);
        assert Map([files[0]], w) == [Write(OutPath(files[0], output, embedDir), rowsOf(files[0]))];
      } else {
        assert Sorting.Filter(files, NonEmptyWith(rowsOf)) == kept;
      }
    }
  }
}
