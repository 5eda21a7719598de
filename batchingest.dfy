/** Choosing the PDFs a batch ingest works on: every PDF under the raw
    directory, sorted, optionally narrowed to the requested document stems,
    with each requested stem that matched nothing reported once. The
    directory walk is a parameter: the entries it yields. */
module BatchIngest {
  import opened Text
  import opened Lists
  import opened Paths
  import Sorting

  /** A path whose suffix lower-cases to ".pdf". */
  predicate IsPdfName(p: Path) {
    Lower(Suffix(Name(p))) == ".pdf"
  }

  /** A file whose suffix lower-cases to ".pdf". */
  predicate IsPdf(e: Entry) {
    e.isFile && IsPdfName(e.path)
  }

  /** The PDFs of the walk, in the order the walk yields them. */
  function PdfPaths(entries: seq<Entry>): (r: seq<Path>)
    ensures |r| <= |entries|
  {
    if |entries| == 0 then []
    else
      var rest := PdfPaths(entries[..|entries| - 1]);
      var e := entries[|entries| - 1];
      if IsPdf(e) then rest + [e.path] else rest
  }

  lemma PdfPathsStep(entries: seq<Entry>, i: nat)
    requires i < |entries|
    ensures PdfPaths(entries[..i + 1]) == PdfPaths(entries[..i]) + if IsPdf(entries[i]) then [entries[i].path] else []
  {
    assert entries[..i + 1][..i] == entries[..i];
  }

  /** A path is among the PDFs exactly when the walk yields it as a file
      and its suffix is ".pdf" in any case. */
  lemma {:induction false} PdfPathsMember(entries: seq<Entry>, p: Path)
    ensures p in PdfPaths(entries) <==> Entry(p, true) in entries && IsPdfName(p)
    decreases |entries|
  {
    if |entries| > 0 {
      var u := entries[..|entries| - 1];
      PdfPathsMember(u, p);
      assert entries == u + [entries[|entries| - 1]];
    }
  }

  /** `_collect_pdfs(raw_dir)` */
  method CollectPdfs(exists_: bool, entries: seq<Entry>) returns (pdfs: seq<Path>)
    ensures !exists_ ==> pdfs == []
    ensures exists_ ==> pdfs == Sorting.SortBy(PdfPaths(entries), PathLeq)
  {
    if !exists_ {
      return [];
    }
    var found: seq<Path> := [];
    for i := 0 to |entries|
      invariant found == PdfPaths(entries[..i])
    {
      PdfPathsStep(entries, i);
      if entries[i].isFile && Lower(Suffix(Name(entries[i].path))) == ".pdf" {
        found := found + [entries[i].path];
      }
    }
    assert entries[..|entries|] == entries;
    pdfs := Sorting.SortBy(found, PathLeq);
  }

  /** The collected PDFs are in path order, and they are exactly the files
      of the walk whose suffix is ".pdf" in any case, each as often as the
      walk yields it. */
  lemma CollectedPdfs(entries: seq<Entry>)
    ensures Sorting.Sorted(Sorting.SortBy(PdfPaths(entries), PathLeq), PathLeq)
    ensures multiset(Sorting.SortBy(PdfPaths(entries), PathLeq)) == multiset(PdfPaths(entries))
    ensures forall p :: p in Sorting.SortBy(PdfPaths(entries), PathLeq) <==> Entry(p, true) in entries && IsPdfName(p)
  {
    PathLeqOrder([]);
    Sorting.SortBySorted(PdfPaths(entries), PathLeq);
    Sorting.SortByMembers(PdfPaths(entries), PathLeq);
    forall p
      ensures p in PdfPaths(entries) <==> Entry(p, true) in entries && IsPdfName(p)
    {
      PdfPathsMember(entries, p);
    }
  }

  /** `Path(name).stem` */
  function StemOf(name: string): string {
    Stem(Name(Parse(name)))
  }

  /** `{Path(name).stem for name in names if name.strip()}` */
  function Requested(names: seq<string>): set<string> {
    set n | n in names && Strip(n) != "" :: StemOf(n)
  }

  function StemIn(requested: set<string>): Path -> bool {
    p => Stem(Name(p)) in requested
  }

  /** The PDFs selected: all of them without a request, otherwise those
      whose stem was requested, in their order. */
  function Selected(pdfs: seq<Path>, names: seq<string>): seq<Path> {
    if Requested(names) == {} then pdfs else Sorting.Filter(pdfs, StemIn(Requested(names)))
  }

  /** The values of `f` over a list. */
  function Image<T>(ps: seq<T>, f: T -> string): set<string> {
    if |ps| == 0 then {} else Image(ps[..|ps| - 1], f) + {f(ps[|ps| - 1])}
  }

  lemma {:induction false} ImageMember<T>(ps: seq<T>, f: T -> string, x: string)
    ensures x in Image(ps, f) <==> exists k :: 0 <= k < |ps| && f(ps[k]) == x
    decreases |ps|
  {
    if |ps| > 0 {
      var u := ps[..|ps| - 1];
      ImageMember(u, f, x);
      if x in Image(u, f) {
        var k :| 0 <= k < |u| && f(u[k]) == x;
        assert ps[k] == u[k];
      }
      if exists k :: 0 <= k < |ps| && f(ps[k]) == x {
        var k :| 0 <= k < |ps| && f(ps[k]) == x;
        if k < |u| {
          assert u[k] == ps[k];
        }
      }
    }
  }

  function StemOfPath(p: Path): string {
    Stem(Name(p))
  }

  /** The stems of a list of paths. */
  function Stems(ps: seq<Path>): set<string> {
    Image(ps, StemOfPath)
  }

  /** The requested stems no PDF has. */
  function Missing(pdfs: seq<Path>, names: seq<string>): set<string> {
    Requested(names) - Stems(pdfs)
  }

  lemma StemsStep(ps: seq<Path>, i: nat)
    requires i < |ps|
    ensures Stems(ps[..i + 1]) == Stems(ps[..i]) + {Stem(Name(ps[i]))}
  {
    assert ps[..i + 1][..i] == ps[..i];
  }

  /** A stem is among the stems exactly when some path has it. */
  lemma StemsMember(ps: seq<Path>, x: string)
    ensures x in Stems(ps) <==> exists k :: 0 <= k < |ps| && Stem(Name(ps[k])) == x
  {
    ImageMember(ps, StemOfPath, x);
  }

  lemma FilterStep(ps: seq<Path>, i: nat, f: Path -> bool)
    requires i < |ps|
    ensures Sorting.Filter(ps[..i + 1], f) == Sorting.Filter(ps[..i], f) + if f(ps[i]) then [ps[i]] else []
  {
    assert ps[..i + 1] == ps[..i] + [ps[i]];
    Sorting.FilterAppend(ps[..i], [ps[i]], f);
    Sorting.FilterSingle(ps[i], f);
  }

  /** `sorted(missing)`: the members of a set of names in string order. */
  method SortedNames(names: set<string>) returns (r: seq<string>)
    ensures Sorting.Sorted(r, Sorting.StrLeq) && Distinct(r)
    ensures Elements(r) == names
  {
    var rest := names;
    var list: seq<string> := [];
    while rest != {}
      invariant Distinct(list)
      invariant Elements(list) + rest == names
      invariant forall x :: x in rest ==> x !in list
      decreases |rest|
    {
      var x :| x in rest;
      list := list + [x];
      rest := rest - {x};
    }
    Sorting.StrLeqTotalPreorder();
    r := Sorting.SortBy(list, Sorting.StrLeq);
    Sorting.SortBySorted(list, Sorting.StrLeq);
    DistinctPermutation(list, r);
    Sorting.SortByMembers(list, Sorting.StrLeq);
  }

  /** The loop of `_filter_docs` over the PDFs, for a non-empty request. */
  method MatchStems(pdfs: seq<Path>, requested: set<string>) returns (matches: seq<Path>, missing: set<string>)
    ensures matches == Sorting.Filter(pdfs, StemIn(requested))
    ensures missing == requested - Stems(pdfs)
  {
    matches := [];
    missing := requested;
    for i := 0 to |pdfs|
      invariant matches == Sorting.Filter(pdfs[..i], StemIn(requested))
      invariant missing == requested - Stems(pdfs[..i])
    {
      FilterStep(pdfs, i, StemIn(requested));
      StemsStep(pdfs, i);
      var stem := Stem(Name(pdfs[i]));
      if stem in requested {
        matches := matches + [pdfs[i]];
        missing := missing - {stem};
      }
    }
    assert pdfs[..|pdfs|] == pdfs;
  }

  /** `_filter_docs(pdfs, names)`: the selected PDFs and, in the order they
      are warned about, the requested stems that matched none. */
  method FilterDocs(pdfs: seq<Path>, names: seq<string>) returns (matches: seq<Path>, missingReport: seq<string>)
    ensures matches == Selected(pdfs, names)
    ensures Sorting.Sorted(missingReport, Sorting.StrLeq) && Distinct(missingReport)
    ensures Elements(missingReport) == Missing(pdfs, names)
  {
    var requested := Requested(names);
    if requested == {} {
      return pdfs, [];
    }
    var missing;
    matches, missing := MatchStems(pdfs, requested);
    missingReport := SortedNames(missing);
  }

  /** Without a non-blank requested name every PDF is kept, in order. */
  lemma SelectedAll(pdfs: seq<Path>, names: seq<string>)
    requires forall k :: 0 <= k < |names| ==> Strip(names[k]) == ""
    ensures Selected(pdfs, names) == pdfs
  {
    assert Requested(names) == {};
  }

  /** With a non-blank requested name, exactly the PDFs whose stem
      (compared case-sensitively) is the stem of a requested name are kept,
      in their order. */
  lemma SelectedMatches(pdfs: seq<Path>, names: seq<string>)
    requires Requested(names) != {}
    ensures Selected(pdfs, names) == Sorting.Filter(pdfs, StemIn(Requested(names)))
    ensures forall p :: p in Selected(pdfs, names) <==>
              p in pdfs && exists n :: n in names && Strip(n) != "" && StemOf(n) == Stem(Name(p))
  {
    forall p
      ensures p in Selected(pdfs, names) <==>
              p in pdfs && exists n :: n in names && Strip(n) != "" && StemOf(n) == Stem(Name(p))
    {
      Sorting.FilterMember(pdfs, StemIn(Requested(names)), p);
    }
  }

  /** A stem is reported missing exactly when a non-blank requested name
      has it and no PDF does. */
  lemma MissingMeaning(pdfs: seq<Path>, names: seq<string>)
    ensures forall s :: s in Missing(pdfs, names) <==>
              (exists n :: n in names && Strip(n) != "" && StemOf(n) == s)
              && forall k :: 0 <= k < |pdfs| ==> Stem(Name(pdfs[k])) != s
  {
    forall s
      ensures s in Missing(pdfs, names) <==>
              (exists n :: n in names && Strip(n) != "" && StemOf(n) == s)
              && forall k :: 0 <= k < |pdfs| ==> Stem(Name(pdfs[k])) != s
    {
      StemsMember(pdfs, s);
    }
  }

  /** A requested "X.pdf" selects the PDFs named "X.pdf", as "X" does. */
  lemma StemOfPdfName(x: string)
    requires x != "" && '/' !in x && '.' !in x
    ensures StemOf(x + ".pdf") == x
    ensures StemOf(x) == x
  {
    SuffixOfWithSuffix(x, ".pdf");
    assert Parse(x + ".pdf") == [x + ".pdf"] by {
      assert '/' !in x + ".pdf";
      SplitOnNone(x + ".pdf", '/');
      DropEmptyOne(x + ".pdf");
    }
    assert Parse(x) == [x] by {
      SplitOnNone(x, '/');
      assert x != "." by { assert x[0] != '.'; }
      DropEmptyOne(x);
    }
  }
}
