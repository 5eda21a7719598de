/** What the staged ingestion commands share: the sorted scan of a
    directory for JSONL files with a given ending, the choice between one
    explicit file and such a scan, and the rule that an explicit output
    path needs an explicit input file. The directory listing is a
    parameter. */
module JsonlScan {
  import opened Wrappers
  import opened Text
  import opened Lists
  import opened Paths
  import Sorting

  /** A file whose suffix lower-cases to ".jsonl" and whose name ends with
      `ending`. */
  predicate Selects(ending: string, e: Entry) {
    e.isFile && Lower(Suffix(Name(e.path))) == ".jsonl" && EndsWith(Name(e.path), ending)
  }

  function SelectsWith(ending: string): Entry -> bool {
    e => Selects(ending, e)
  }

  function PathOf(e: Entry): Path {
    e.path
  }

  /** `sorted(p for p in dir.iterdir() if p.is_file() and
      p.suffix.lower() == ".jsonl" and p.name.endswith(ending))` */
  function Scan(entries: seq<Entry>, ending: string): seq<Path> {
    Sorting.SortBy(Map(Sorting.Filter(entries, SelectsWith(ending)), PathOf), PathLeq)
  }

  /** For a test that only files pass, a path is kept exactly when it is
      listed as a file that passes. */
  lemma FilterPathMember(entries: seq<Entry>, f: Entry -> bool, p: Path)
    requires forall e :: f(e) ==> e.isFile
    ensures p in Map(Sorting.Filter(entries, f), PathOf) <==> Entry(p, true) in entries && f(Entry(p, true))
  {
    var kept := Sorting.Filter(entries, f);
    Sorting.FilterMember(entries, f, Entry(p, true));
    if p in Map(kept, PathOf) {
      var k :| 0 <= k < |kept| && Map(kept, PathOf)[k] == p;
      assert kept[k] in kept;
    }
    if Entry(p, true) in kept {
      var k :| 0 <= k < |kept| && kept[k] == Entry(p, true);
      assert Map(kept, PathOf)[k] == p;
    }
  }

  /** The scan is in path order and holds exactly the listed files with
      that ending whose suffix is ".jsonl" in any case. */
  lemma ScanMeaning(entries: seq<Entry>, ending: string)
    ensures Sorting.Sorted(Scan(entries, ending), PathLeq)
    ensures forall p :: p in Scan(entries, ending) <==> Selects(ending, Entry(p, true)) && Entry(p, true) in entries
  {
    var paths := Map(Sorting.Filter(entries, SelectsWith(ending)), PathOf);
    PathLeqOrder([]);
    Sorting.SortBySorted(paths, PathLeq);
    Sorting.SortByMembers(paths, PathLeq);
    forall p
      ensures p in paths <==> Selects(ending, Entry(p, true)) && Entry(p, true) in entries
    {
      FilterPathMember(entries, SelectsWith(ending), p);
    }
  }

  /** A name that ends with "<something>.jsonl" has the suffix ".jsonl", so
      for the endings the commands look for, the case-insensitive suffix
      test adds nothing. */
  lemma EndingGivesSuffix(name: string, ending: string)
    requires |ending| > 6 && ending[|ending| - 6..] == ".jsonl" && EndsWith(name, ending)
    ensures Suffix(name) == ".jsonl"
  {
    var i := |name| - 6;
    assert name[i..] == ending[|ending| - 6..] by {
      assert name[|name| - |ending|..][|ending| - 6..] == name[i..];
    }
    assert name[i] == '.';
    forall k | i < k < |name| ensures name[k] != '.' {
      assert name[k] == name[i..][k - i];
    }
    assert RFind(name, '.') == i;
  }

  /** `_gather_chunk_files(single, chunks_dir)`: the explicit file alone,
      otherwise the sorted "_chunks.jsonl" files of the directory;
      `FileNotFoundError` when the directory is missing or holds none. */
  function GatherChunkFiles(single: Option<Path>, dirExists: bool, entries: seq<Entry>): Result<seq<Path>, string> {
    if single.Some? then Ok([single.value])
    else if !dirExists then Err("FileNotFoundError: chunks directory not found")
    else
      var files := Scan(entries, "_chunks.jsonl");
      if |files| == 0 then Err("FileNotFoundError: no *_chunks.jsonl files found")
      else Ok(files)
  }

  /** An explicit file is used alone; otherwise the result is the non-empty
      sorted scan, and the error cases are exactly a missing directory and
      an empty scan. */
  lemma GatherChunkFilesMeaning(single: Option<Path>, dirExists: bool, entries: seq<Entry>)
    ensures single.Some? ==> GatherChunkFiles(single, dirExists, entries) == Ok([single.value])
    ensures single.None? ==>
              (GatherChunkFiles(single, dirExists, entries).Err? <==> !dirExists || Scan(entries, "_chunks.jsonl") == [])
    ensures GatherChunkFiles(single, dirExists, entries).Ok? && single.None? ==>
              var files := GatherChunkFiles(single, dirExists, entries).value;
              |files| > 0 && Sorting.Sorted(files, PathLeq)
              && forall p :: p in files ==> Entry(p, true) in entries && EndsWith(Name(p), "_chunks.jsonl")
                                            && Suffix(Name(p)) == ".jsonl"
  {
    if single.None? && dirExists {
      ScanMeaning(entries, "_chunks.jsonl");
      forall p | p in Scan(entries, "_chunks.jsonl")
        ensures Suffix(Name(p)) == ".jsonl"
      {
        EndingGivesSuffix(Name(p), "_chunks.jsonl");
      }
    }
  }

  /** `if args.output and args.chunks is None: raise ValueError(...)` */
  function CheckOutput(output: Option<Path>, chunks: Option<Path>): (r: Result<(), string>)
    ensures r.Err? <==> output.Some? && chunks.None?
  {
    if output.Some? && chunks.None? then Err("ValueError: --output can only be used with a single --chunks file")
    else Ok(())
  }
}
