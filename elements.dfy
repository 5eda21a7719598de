/** Element normalisation after PDF partitioning: whitespace normalisation
    of element text, the mapping of partitioner categories to title, table
    and text, and the ingestion extractor's filter, mapping and stable sort
    by page. The partitioner and its text cleaners are parameters. */
module Elements {
  import opened Wrappers
  import opened Text
  import Sorting

  // ---- `_norm_text` ----

  /** `re.sub(r"\s+", " ", s)`: each maximal run of whitespace becomes one space. */
  function Collapse(s: string): (r: string)
    ensures |r| <= |s|
    decreases |s|
  {
    if |s| == 0 then ""
    else if IsSpace(s[0]) then " " + Collapse(LStrip(s[1..]))
    else [s[0]] + Collapse(s[1..])
  }

  /** `_norm_text(s)`: strip, then collapse the inner whitespace runs. */
  function NormText(s: string): string {
    var t := Strip(s);
    if t == "" then t else Collapse(t)
  }

  /** The only whitespace is a plain space, and never two in a row. */
  predicate SingleSpaced(r: string) {
    forall i :: 0 <= i < |r| && IsSpace(r[i]) ==> r[i] == ' ' && (i + 1 < |r| ==> !IsSpace(r[i + 1]))
  }

  /** The characters of `s` that are not whitespace, in order. */
  function NonSpace(s: string): string
    decreases |s|
  {
    if |s| == 0 then ""
    else (if IsSpace(s[0]) then "" else [s[0]]) + NonSpace(s[1..])
  }

  /** A collapsed string starts with whitespace exactly when its input does. */
  lemma CollapseFirst(s: string)
    requires |s| > 0
    ensures |Collapse(s)| > 0 && (IsSpace(Collapse(s)[0]) <==> IsSpace(s[0]))
  {
  }

  /** A collapsed string ends with whitespace exactly when its input does. */
  lemma {:induction false} CollapseLast(s: string)
    requires |s| > 0
    ensures |Collapse(s)| > 0
    ensures Collapse(s)[|Collapse(s)| - 1] == if IsSpace(s[|s| - 1]) then ' ' else s[|s| - 1]
    decreases |s|
  {
    var r := Collapse(s);
    if IsSpace(s[0]) {
      var t := LStrip(s[1..]);
      assert r == " " + Collapse(t);
      if |t| == 0 {
        LStripRemovesSpace(s[1..]);
        assert r == " ";
        if |s| > 1 {
          assert IsSpace(s[1..][|s| - 2]);
        }
      } else {
        CollapseLast(t);
        var c := Collapse(t);
        assert r[|r| - 1] == c[|c| - 1];
        assert t[|t| - 1] == s[|s| - 1];
      }
    } else if |s| > 1 {
      CollapseLast(s[1..]);
      var c := Collapse(s[1..]);
      assert r == [s[0]] + c;
      assert r[|r| - 1] == c[|c| - 1];
      assert s[1..][|s| - 2] == s[|s| - 1];
    }
  }

  lemma SingleSpacedCons(c: char, t: string)
    requires SingleSpaced(t)
    requires IsSpace(c) ==> c == ' ' && (|t| > 0 ==> !IsSpace(t[0]))
    ensures SingleSpaced([c] + t)
  {
    var r := [c] + t;
    forall i | 0 <= i < |r| && IsSpace(r[i])
      ensures r[i] == ' ' && (i + 1 < |r| ==> !IsSpace(r[i + 1]))
    {
      if i > 0 {
        assert r[i] == t[i - 1];
      }
    }
  }

  lemma {:induction false} CollapseShape(s: string)
    ensures SingleSpaced(Collapse(s))
    decreases |s|
  {
    if |s| > 0 {
      if IsSpace(s[0]) {
        var t := LStrip(s[1..]);
        CollapseShape(t);
        if |t| > 0 {
          CollapseFirst(t);
        }
        SingleSpacedCons(' ', Collapse(t));
        assert Collapse(s) == [' '] + Collapse(t);
      } else {
        CollapseShape(s[1..]);
        SingleSpacedCons(s[0], Collapse(s[1..]));
        assert Collapse(s) == [s[0]] + Collapse(s[1..]);
      }
    }
  }

  /** `_norm_text` leaves no whitespace at either end, turns every inner run
      of whitespace into one plain space, and maps whitespace-only input to "". */
  lemma NormTextShape(s: string)
    ensures NoSpaceAround(NormText(s)) && SingleSpaced(NormText(s))
    ensures NormText(s) == "" <==> forall i :: 0 <= i < |s| ==> IsSpace(s[i])
  {
    var t := Strip(s);
    StripEmptyIff(s);
    CollapseShape(t);
    if t != "" {
      CollapseFirst(t);
      CollapseLast(t);
    }
  }

  lemma {:induction false} CollapseOfSingleSpaced(s: string)
    requires SingleSpaced(s)
    ensures Collapse(s) == s
    decreases |s|
  {
    if |s| > 0 {
      assert SingleSpaced(s[1..]) by {
        forall i | 0 <= i < |s[1..]| && IsSpace(s[1..][i])
          ensures s[1..][i] == ' ' && (i + 1 < |s[1..]| ==> !IsSpace(s[1..][i + 1]))
        {
          assert s[1..][i] == s[i + 1];
        }
      }
      CollapseOfSingleSpaced(s[1..]);
      if IsSpace(s[0]) {
        assert |s| == 1 || !IsSpace(s[1..][0]);
      }
    }
  }

  /** Normalising normalised text changes nothing. */
  lemma NormTextIdempotent(s: string)
    ensures NormText(NormText(s)) == NormText(s)
  {
    var r := NormText(s);
    NormTextShape(s);
    StripOfClean(r);
    if r != "" {
      CollapseOfSingleSpaced(r);
    }
  }

  lemma {:induction false} NonSpaceAppend(a: string, b: string)
    ensures NonSpace(a + b) == NonSpace(a) + NonSpace(b)
    decreases |a|
  {
    if |a| > 0 {
      assert (a + b)[1..] == a[1..] + b;
      NonSpaceAppend(a[1..], b);
    } else {
      assert a + b == b;
    }
  }

  lemma {:induction false} NonSpaceLStrip(s: string)
    ensures NonSpace(LStrip(s)) == NonSpace(s)
    decreases |s|
  {
    if |s| > 0 && IsSpace(s[0]) {
      NonSpaceLStrip(s[1..]);
    }
  }

  lemma {:induction false} NonSpaceStrip(s: string)
    ensures NonSpace(Strip(s)) == NonSpace(s)
    decreases |s|
  {
    if |s| > 0 && IsSpace(s[0]) {
      NonSpaceStrip(s[1..]);
    } else if |s| > 0 && IsSpace(s[|s| - 1]) {
      var u := s[..|s| - 1];
      NonSpaceStrip(u);
      assert s == u + [s[|s| - 1]];
      NonSpaceAppend(u, [s[|s| - 1]]);
      assert NonSpace([s[|s| - 1]]) == "";
    }
  }

  lemma {:induction false} NonSpaceCollapse(s: string)
    ensures NonSpace(Collapse(s)) == NonSpace(s)
    decreases |s|
  {
    if |s| > 0 {
      if IsSpace(s[0]) {
        NonSpaceCollapse(LStrip(s[1..]));
        NonSpaceLStrip(s[1..]);
        assert (" " + Collapse(LStrip(s[1..])))[1..] == Collapse(LStrip(s[1..]));
      } else {
        NonSpaceCollapse(s[1..]);
        assert ([s[0]] + Collapse(s[1..]))[1..] == Collapse(s[1..]);
      }
    }
  }

  /** Normalisation only touches whitespace: the other characters are kept,
      in order. */
  lemma NormTextKeepsText(s: string)
    ensures NonSpace(NormText(s)) == NonSpace(s)
  {
    NonSpaceStrip(s);
    NonSpaceCollapse(Strip(s));
  }

  // ---- `_map_unstructured_category` ----

  /** `_map_unstructured_category(category)` */
  function MapCategory(category: Option<string>): (t: string)
    ensures t == "title" || t == "table" || t == "text"
  {
    if category.None? || category.value == "" then "text"
    else
      var c := Lower(category.value);
      if c == "title" then "title" else if c == "table" then "table" else "text"
  }

  /** The mapping is case-insensitive, gives "title" or "table" exactly for
      those names in any letter case, and "text" for everything else,
      including None and "". */
  lemma MapCategoryMeaning(category: Option<string>)
    ensures MapCategory(category) == "title" <==> category.Some? && Lower(category.value) == "title"
    ensures MapCategory(category) == "table" <==> category.Some? && Lower(category.value) == "table"
    ensures category.Some? ==> MapCategory(category) == MapCategory(Some(Lower(category.value)))
  {
    if category.Some? {
      LowerIdempotent(category.value);
    }
  }

  // ---- partitioned elements ----

  /** One number or string as the partitioner stores it. */
  datatype Value = Num(r: real) | Str(s: string) | Null | Other

  /** A coordinate point: a dictionary with `x` and `y` (a missing key is
      Null), a list or tuple, or anything else. */
  datatype RawPoint = PointDict(x: Value, y: Value) | PointSeq(items: seq<Value>) | NotAPoint

  /** The coordinates' dictionary; `points` can be missing. */
  datatype CoordDict = CoordDict(
    points: Option<seq<RawPoint>>,
    system: Option<string>,
    layoutWidth: Option<real>,
    layoutHeight: Option<real>)

  /** An element's metadata; an attribute it lacks is None. */
  datatype ElementMeta = ElementMeta(pageNumber: Option<int>, coordinates: Option<CoordDict>)

  /** An element as the partitioner returns it. */
  datatype RawElement = RawElement(category: Option<string>, text: Option<string>, meta: Option<ElementMeta>)

  /** `meta.page_number if (meta and hasattr(meta, "page_number")) else None` */
  function PageOf(el: RawElement): Option<int> {
    if el.meta.Some? then el.meta.value.pageNumber else None
  }

  // ---- ingestion `extract_elements` ----

  /** The `cleaning` section's two switches. */
  datatype CleaningSection = CleaningSection(applyUnicodeQuotes: bool, applyClean: bool)

  /** The library's quote replacement and `clean` with the configured options. */
  datatype Cleaners = Cleaners(quotes: string -> string, clean: string -> string)

  /** The normalised element record. */
  datatype Element = Element(sourceDoc: string, docId: string, etype: string, text: string, page: Option<int>)

  /** `f"{doc_id}_p{page}" if page is not None else doc_id` */
  function DocIdOf(docId: string, page: Option<int>): string {
    if page.Some? then docId + "_p" + IntToString(page.value) else docId
  }

  /** The cleaning steps the configuration switches on, in order. */
  function CleanedText(text: string, cfg: CleaningSection, cl: Cleaners): string {
    var q := if cfg.applyUnicodeQuotes then cl.quotes(text) else text;
    if cfg.applyClean then cl.clean(q) else q
  }

  /** What one partitioned element becomes: nothing when its normalised or
      cleaned text is blank. */
  function ElementOf(el: RawElement, docId: string, cfg: CleaningSection, cl: Cleaners): Option<Element> {
    var norm := NormText(el.text.GetOr(""));
    if norm == "" then None
    else
      var text := CleanedText(norm, cfg, cl);
      if Strip(text) == "" then None
      else Some(Element(docId, DocIdOf(docId, PageOf(el)), MapCategory(el.category), text, PageOf(el)))
  }

  /** The properties every extracted element has. */
  predicate WellFormed(e: Element, docId: string) {
    e.sourceDoc == docId && e.docId == DocIdOf(docId, e.page)
    && (e.etype == "title" || e.etype == "table" || e.etype == "text")
    && e.text != "" && Strip(e.text) != ""
  }

  function OptList(o: Option<Element>): seq<Element> {
    if o.Some? then [o.value] else []
  }

  /** The `out` list before sorting. */
  function Converted(raw: seq<RawElement>, docId: string, cfg: CleaningSection, cl: Cleaners): (r: seq<Element>)
    ensures |r| <= |raw|
    ensures forall k :: 0 <= k < |r| ==> WellFormed(r[k], docId)
  {
    if |raw| == 0 then []
    else Converted(raw[..|raw| - 1], docId, cfg, cl) + OptList(ElementOf(raw[|raw| - 1], docId, cfg, cl))
  }

  /** `r.get("page") or 0` */
  function PageKey(e: Element): int {
    e.page.GetOr(0)
  }

  predicate ByPage(a: Element, b: Element) {
    PageKey(a) <= PageKey(b)
  }

  /** What `extract_elements(doc_path, doc_id)` returns for the partitioned
      elements. */
  function Extracted(raw: seq<RawElement>, docId: string, cfg: CleaningSection, cl: Cleaners): seq<Element> {
    Sorting.SortBy(Converted(raw, docId, cfg, cl), ByPage)
  }

  lemma ConvertedStep(raw: seq<RawElement>, i: nat, docId: string, cfg: CleaningSection, cl: Cleaners)
    requires i < |raw|
    ensures Converted(raw[..i + 1], docId, cfg, cl)
            == Converted(raw[..i], docId, cfg, cl) + OptList(ElementOf(raw[i], docId, cfg, cl))
  {
    assert raw[..i + 1][..i] == raw[..i];
  }

  /** One iteration of the loop: the element's normalised, cleaned record,
      or none when its text is blank. */
  method ConvertOne(el: RawElement, docId: string, cfg: CleaningSection, cl: Cleaners) returns (o: Option<Element>)
    ensures o == ElementOf(el, docId, cfg, cl)
  {
    var t := MapCategory(el.category);
    var textNorm := NormText(el.text.GetOr(""));
    if textNorm == "" {
      return None;
    }
    var textClean := textNorm;
    if cfg.applyUnicodeQuotes {
      textClean := cl.quotes(textClean);
    }
    if cfg.applyClean {
      textClean := cl.clean(textClean);
    }
    if Strip(textClean) == "" {
      return None;
    }
    var page := PageOf(el);
    return Some(Element(docId, DocIdOf(docId, page), t, textClean, page));
  }

  /** `extract_elements(doc_path, doc_id)` after partitioning. */
  method ExtractElements(raw: seq<RawElement>, docId: string, cfg: CleaningSection, cl: Cleaners)
    returns (out: seq<Element>)
    ensures out == Extracted(raw, docId, cfg, cl)
  {
    out := [];
    for i := 0 to |raw|
      invariant out == Converted(raw[..i], docId, cfg, cl)
    {
      var o := ConvertOne(raw[i], docId, cfg, cl);
      ConvertedStep(raw, i, docId, cfg, cl);
      out := out + OptList(o);
    }
    assert raw[..|raw|] == raw;
    out := Sorting.SortBy(out, ByPage);
  }

  lemma ByPagePreorder()
    ensures Sorting.TotalPreorder(ByPage)
  {
  }

  /** The extracted elements are the converted ones, each well formed, ordered
      by page (None counting as 0), and elements of one page keep their
      partition order. */
  lemma ExtractedMeaning(raw: seq<RawElement>, docId: string, cfg: CleaningSection, cl: Cleaners, y: Element)
    ensures var r := Extracted(raw, docId, cfg, cl);
            && multiset(r) == multiset(Converted(raw, docId, cfg, cl))
            && (forall k :: 0 <= k < |r| ==> WellFormed(r[k], docId))
            && Sorting.Sorted(r, ByPage)
            && Sorting.Filter(r, Sorting.EquivTo(y, ByPage))
               == Sorting.Filter(Converted(raw, docId, cfg, cl), Sorting.EquivTo(y, ByPage))
  {
    var c := Converted(raw, docId, cfg, cl);
    var r := Extracted(raw, docId, cfg, cl);
    ByPagePreorder();
    Sorting.SortBySorted(c, ByPage);
    Sorting.SortByStable(c, y, ByPage);
    forall k | 0 <= k < |r|
      ensures WellFormed(r[k], docId)
    {
      assert r[k] in multiset(c);
      var j :| 0 <= j < |c| && c[j] == r[k];
    }
  }
}
