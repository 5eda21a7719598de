/** Where an uploaded or local PDF is saved before ingestion: the name is
    reduced to a safe stem and the destination is forced to end in ".pdf".
    Writing the bytes is left out; the model says where they go and whether
    they are written. */
module UploadNames {
  import opened Wrappers
  import opened Text
  import opened Paths

  /** The characters a safe stem keeps. */
  predicate SafeChar(c: char) {
    IsAlnum(c) || c == '_' || c == '-' || c == '.'
  }

  /** The safe characters of `s`, in order. */
  function KeepSafe(s: string): (r: string)
    ensures |r| <= |s|
  {
    if |s| == 0 then ""
    else (if SafeChar(s[0]) then [s[0]] else "") + KeepSafe(s[1..])
  }

  /** `a` is `b` with some characters deleted. */
  predicate Subsequence(a: string, b: string)
    decreases |b|
  {
    |a| == 0 || (|b| > 0 && ((a[0] == b[0] && Subsequence(a[1..], b[1..])) || Subsequence(a, b[1..])))
  }

  /** The stem of `Path(name)`. */
  function StemOfName(name: string): string {
    Stem(Name(Parse(name)))
  }

  /** The safe characters of a stem, cut to 128. */
  function SafeOf(stem: string): string {
    var kept := KeepSafe(stem);
    if |kept| <= 128 then kept else kept[..128]
  }

  /** `_safe_stem(name)` */
  function SafeStem(name: string): string {
    SafeOf(StemOfName(name))
  }

  lemma {:induction false} KeepSafeChars(s: string)
    ensures forall k :: 0 <= k < |KeepSafe(s)| ==> SafeChar(KeepSafe(s)[k])
    ensures Subsequence(KeepSafe(s), s)
    ensures (forall k :: 0 <= k < |s| ==> SafeChar(s[k])) ==> KeepSafe(s) == s
    decreases |s|
  {
    if |s| > 0 {
      KeepSafeChars(s[1..]);
      if SafeChar(s[0]) {
        assert KeepSafe(s)[1..] == KeepSafe(s[1..]);
      } else {
        assert KeepSafe(s) == KeepSafe(s[1..]);
        SubsequenceSkip(KeepSafe(s[1..]), s);
      }
    }
  }

  lemma SubsequenceSkip(a: string, b: string)
    requires |b| > 0 && Subsequence(a, b[1..])
    ensures Subsequence(a, b)
  {
  }

  /** A prefix of a subsequence is a subsequence. */
  lemma {:induction false} SubsequencePrefix(a: string, b: string, n: nat)
    requires n <= |a| && Subsequence(a, b)
    ensures Subsequence(a[..n], b)
    decreases |b|
  {
    if n > 0 {
      if a[0] == b[0] && Subsequence(a[1..], b[1..]) {
        SubsequencePrefix(a[1..], b[1..], n - 1);
        assert a[..n][1..] == a[1..][..n - 1];
      } else {
        SubsequencePrefix(a, b[1..], n);
      }
    }
  }

  /** The safe form of a stem has at most 128 characters, all
      alphanumeric, "_", "-" or ".", and is the stem with characters deleted,
      order kept; a stem that is already safe and short enough is kept
      whole. */
  lemma SafeOfMeaning(stem: string)
    ensures |SafeOf(stem)| <= 128
    ensures forall k :: 0 <= k < |SafeOf(stem)| ==> SafeChar(SafeOf(stem)[k])
    ensures Subsequence(SafeOf(stem), stem)
    ensures |stem| <= 128 && (forall k :: 0 <= k < |stem| ==> SafeChar(stem[k])) ==> SafeOf(stem) == stem
  {
    var kept := KeepSafe(stem);
    KeepSafeChars(stem);
    if |kept| > 128 {
      SubsequencePrefix(kept, stem, 128);
    }
  }

  /** `_safe_stem(name)` is the safe form of the stem of `Path(name)`. */
  lemma SafeStemMeaning(name: string)
    ensures |SafeStem(name)| <= 128
    ensures forall k :: 0 <= k < |SafeStem(name)| ==> SafeChar(SafeStem(name)[k])
    ensures Subsequence(SafeStem(name), StemOfName(name))
  {
    SafeOfMeaning(StemOfName(name));
  }

  /** `dest.with_suffix(".pdf")` unless the suffix already lower-cases to
      ".pdf"; a destination with an empty name makes `with_suffix` fail. */
  function ForcePdf(dest: Path): Result<Path, string> {
    if Lower(Suffix(Name(dest))) != ".pdf" then WithSuffix(dest, ".pdf") else Ok(dest)
  }

  /** `raw_dir / _safe_stem(filename)` with the ".pdf" suffix forced, as
      both branches of `_save_uploaded_to_local` compute it. */
  function Destination(rawDir: Path, filename: string): Result<Path, string> {
    ForcePdf(Paths.Join(rawDir, SafeStem(filename)))
  }

  /** The forced name always has a suffix that lower-cases to ".pdf"; a
      different suffix is replaced, not appended to, and the directory part
      is kept; a name already ending in ".pdf" in any case is kept. */
  lemma ForcePdfMeaning(dest: Path)
    ensures ForcePdf(dest).Err? <==> Name(dest) == ""
    ensures ForcePdf(dest).Ok? ==> Lower(Suffix(Name(ForcePdf(dest).value))) == ".pdf"
    ensures ForcePdf(dest).Ok? ==> |ForcePdf(dest).value| == |dest|
                                   && ForcePdf(dest).value[..|dest| - 1] == dest[..|dest| - 1]
    ensures Lower(Suffix(Name(dest))) != ".pdf" && Name(dest) != "" ==>
              Name(ForcePdf(dest).value) == Stem(Name(dest)) + ".pdf"
    ensures Lower(Suffix(Name(dest))) == ".pdf" ==> ForcePdf(dest) == Ok(dest)
  {
    if Lower(Suffix(Name(dest))) != ".pdf" && Name(dest) != "" {
      StemSuffixSplit(Name(dest));
      SuffixOfWithSuffix(Stem(Name(dest)), ".pdf");
    }
    if Lower(Suffix(Name(dest))) == ".pdf" {
      assert Name(dest) != "";
    }
  }

  /** An upload: a stream with or without a `name` attribute, or a file
      already on disk. */
  datatype Upload = Stream(name: Option<string>) | LocalFile(path: Path)

  /** The name `_save_uploaded_to_local` derives the destination from. */
  function UploadName(u: Upload): string {
    match u
    case Stream(n) => n.GetOr("uploaded.pdf")
    case LocalFile(p) => Name(p)
  }

  /** Where an upload is saved and whether bytes are written (path
      resolution taken as the identity). */
  datatype Saved = Saved(dest: Path, written: bool)

  /** `_save_uploaded_to_local(uploaded, raw_dir)` as written. */
  function SaveUpload(u: Upload, rawDir: Path): Result<Saved, string> {
    var dest := Destination(rawDir, UploadName(u));
    if dest.Err? then Err(dest.error)
    else Ok(Saved(dest.value, u.Stream? || u.path != dest.value))
  }

  /** A stream is always written; a local file is copied exactly when it is
      not already the destination. */
  lemma SaveUploadWrites(u: Upload, rawDir: Path)
    requires SaveUpload(u, rawDir).Ok?
    ensures SaveUpload(u, rawDir).value.dest == Destination(rawDir, UploadName(u)).value
    ensures u.Stream? ==> SaveUpload(u, rawDir).value.written
    ensures u.LocalFile? ==> (!SaveUpload(u, rawDir).value.written <==> u.path == SaveUpload(u, rawDir).value.dest)
  {
  }

  /** Safe characters never include the path separator. */
  lemma SafeNoSlash(s: string)
    requires forall k :: 0 <= k < |s| ==> SafeChar(s[k])
    ensures '/' !in s
  {
    forall k | 0 <= k < |s| ensures s[k] != '/' {
      assert SafeChar(s[k]);
    }
  }

  /** Joining a plain name and forcing ".pdf" gives a file directly inside
      the directory. */
  lemma ForcePdfInside(rawDir: Path, t: string)
    requires t != "" && t != "." && '/' !in t
    ensures ForcePdf(Paths.Join(rawDir, t)).Ok?
    ensures |ForcePdf(Paths.Join(rawDir, t)).value| == |rawDir| + 1
    ensures ForcePdf(Paths.Join(rawDir, t)).value[..|rawDir|] == rawDir
    ensures Lower(Suffix(Name(ForcePdf(Paths.Join(rawDir, t)).value))) == ".pdf"
  {
    JoinName(rawDir, t);
    ForcePdfMeaning(rawDir + [t]);
    assert (rawDir + [t])[..|rawDir|] == rawDir;
  }

  /** A safe stem other than "" and "." names a file directly inside the
      raw directory. */
  lemma DestinationInside(rawDir: Path, filename: string)
    requires SafeStem(filename) != "" && SafeStem(filename) != "."
    ensures Destination(rawDir, filename).Ok?
    ensures |Destination(rawDir, filename).value| == |rawDir| + 1
    ensures Destination(rawDir, filename).value[..|rawDir|] == rawDir
  {
    SafeOfMeaning(StemOfName(filename));
    SafeNoSlash(SafeStem(filename));
    ForcePdfInside(rawDir, SafeStem(filename));
  }

  lemma HashStem()
    ensures StemOfName("###" + ".pdf") == "###"
  {
    var n := "###" + ".pdf";
    assert n[0] == '#';
    assert '/' !in n by {
      forall k | 0 <= k < |n| ensures n[k] != '/' {
        if k < 3 { assert n[k] == '#'; } else { assert n[k] == ".pdf"[k - 3]; }
      }
    }
    SplitOnNone(n, '/');
    DropEmptyOne(n);
    assert Parse(n) == [n];
    SuffixOfWithSuffix("###", ".pdf");
  }

  lemma HashUnsafe()
    ensures KeepSafe("###") == ""
  {
    assert "###"[1..] == "##" && "##"[1..] == "#" && "#"[1..] == "";
  }

  lemma PdfsDirWithSuffix()
    ensures ForcePdf(["data", "pdfs"]) == Ok(["data", "pdfs" + ".pdf"])
  {
    var d: Path := ["data", "pdfs"];
    assert Name(d) == "pdfs";
    assert RFind("pdfs", '.') == -1;
    assert Suffix("pdfs") == "" && Stem("pdfs") == "pdfs";
    assert Lower("") == "";
    assert d[..1] == ["data"];
    assert Lower(Suffix(Name(d))) != ".pdf";
    assert WithSuffix(d, ".pdf") == Ok(d[..1] + ["pdfs" + ".pdf"]);
    assert d[..1] + ["pdfs" + ".pdf"] == ["data"] + ["pdfs" + ".pdf"] == ["data", "pdfs" + ".pdf"];
  }

  /** The upload "###.pdf" has an empty safe stem, so the destination is the
      raw directory itself given the ".pdf" suffix: a sibling of the raw
      directory, not a file inside it. */
  lemma EmptyStemEscapes()
    ensures SafeStem("###" + ".pdf") == ""
    ensures Destination(["data", "pdfs"], "###" + ".pdf") == Ok(["data", "pdfs" + ".pdf"])
  {
    HashStem();
    HashUnsafe();
    JoinEmpty(["data", "pdfs"]);
    PdfsDirWithSuffix();
  }

  /** The safe stem, with the stem of the default upload name, "uploaded",
      standing in for a safe stem that would name the directory itself. */
  function SafeName(filename: string): string {
    var s := SafeStem(filename);
    if s == "" || s == "." then "uploaded" else s
  }

  /** The destination computed from `SafeName`. */
  function SafeDestination(rawDir: Path, filename: string): Result<Path, string> {
    ForcePdf(Paths.Join(rawDir, SafeName(filename)))
  }

  lemma SafeOfNoSlash(stem: string)
    ensures '/' !in SafeOf(stem)
  {
    SafeOfMeaning(stem);
    SafeNoSlash(SafeOf(stem));
  }

  lemma UploadedPlain()
    ensures '/' !in "uploaded" && "uploaded" != "" && "uploaded" != "."
  {
    var u := "uploaded";
    forall k | 0 <= k < |u| ensures u[k] != '/' {
      assert 'a' <= u[k] <= 'z';
    }
    assert u[0] == 'u';
  }

  lemma SafeNamePlain(filename: string)
    ensures SafeName(filename) != "" && SafeName(filename) != "." && '/' !in SafeName(filename)
  {
    var s := SafeStem(filename);
    if s == "" || s == "." {
      UploadedPlain();
    } else {
      SafeOfNoSlash(StemOfName(filename));
    }
  }

  /** Every upload then lands directly inside the raw directory, under a
      ".pdf" name. */
  lemma SafeDestinationInside(rawDir: Path, filename: string)
    ensures SafeDestination(rawDir, filename).Ok?
    ensures |SafeDestination(rawDir, filename).value| == |rawDir| + 1
    ensures SafeDestination(rawDir, filename).value[..|rawDir|] == rawDir
    ensures Lower(Suffix(Name(SafeDestination(rawDir, filename).value))) == ".pdf"
  {
    SafeNamePlain(filename);
    ForcePdfInside(rawDir, SafeName(filename));
  }

  /** Nothing changes for the names that already landed inside. */
  lemma SafeDestinationAgrees(rawDir: Path, filename: string)
    requires SafeStem(filename) != "" && SafeStem(filename) != "."
    ensures SafeDestination(rawDir, filename) == Destination(rawDir, filename)
  {
  }
}
