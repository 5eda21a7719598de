/** The HTML report of an evaluation run: HTML escaping, anchor slugs, the
    evidence, citation and hit blocks with their labels, the evidence
    backfill from the dataset, and the grouping of records into sections by
    classification in sorted order. */
module ExportEval {
  import opened Wrappers
  import opened Text
  import opened Lists
  import Sorting
  import opened BatchEval

  // ---------------------------------------------------------------------
  // _esc

  /** `html.escape` of one character (quotes included). */
  function EscChar(c: char): string {
    if c == '&' then "&amp;"
    else if c == '<' then "&lt;"
    else if c == '>' then "&gt;"
    else if c == '"' then "&quot;"
    else if c == '\'' then "&#x27;"
    else [c]
  }

  function Escape(s: string): string {
    if |s| == 0 then "" else EscChar(s[0]) + Escape(s[1..])
  }

  /** `_esc(text)`: None gives "". */
  function Esc(text: Option<string>): string {
    Escape(text.GetOr(""))
  }

  /** The inverse of `Escape`: the five entities back to their characters. */
  function Unescape(s: string): string {
    if |s| == 0 then ""
    else if s[0] != '&' then [s[0]] + Unescape(s[1..])
    else if StartsWith(s, "&amp;") then "&" + Unescape(s[5..])
    else if StartsWith(s, "&lt;") then "<" + Unescape(s[4..])
    else if StartsWith(s, "&gt;") then ">" + Unescape(s[4..])
    else if StartsWith(s, "&quot;") then "\"" + Unescape(s[6..])
    else if StartsWith(s, "&#x27;") then "'" + Unescape(s[6..])
    else "&" + Unescape(s[1..])
  }

  /** Unescaping an escaped character gives the character back and goes on
      with the rest. */
  lemma UnescapeCons(c: char, rest: string)
    ensures Unescape(EscChar(c) + rest) == [c] + Unescape(rest)
  {
    if c == '&' {
      UnescapeEntity("&amp;", rest);
    } else if c == '<' {
      UnescapeEntity("&lt;", rest);
      assert !StartsWith("&lt;" + rest, "&amp;") by { assert ("&lt;" + rest)[1] == 'l'; }
    } else if c == '>' {
      UnescapeEntity("&gt;", rest);
      assert !StartsWith("&gt;" + rest, "&amp;") by { assert ("&gt;" + rest)[1] == 'g'; }
      assert !StartsWith("&gt;" + rest, "&lt;") by { assert ("&gt;" + rest)[1] == 'g'; }
    } else if c == '"' {
      UnescapeEntity("&quot;", rest);
      UnescapeQuot(rest);
    } else if c == '\'' {
      UnescapeEntity("&#x27;", rest);
      UnescapeApos(rest);
    } else {
      assert ([c] + rest)[1..] == rest;
    }
  }

  lemma UnescapeEntity(e: string, rest: string)
    requires |e| > 0
    ensures StartsWith(e + rest, e) && (e + rest)[|e|..] == rest && (e + rest)[0] == e[0]
  {
    assert (e + rest)[..|e|] == e;
  }

  lemma UnescapeQuot(rest: string)
    ensures !StartsWith("&quot;" + rest, "&amp;") && !StartsWith("&quot;" + rest, "&lt;")
            && !StartsWith("&quot;" + rest, "&gt;")
  {
    assert ("&quot;" + rest)[1] == 'q';
  }

  lemma UnescapeApos(rest: string)
    ensures !StartsWith("&#x27;" + rest, "&amp;") && !StartsWith("&#x27;" + rest, "&lt;")
            && !StartsWith("&#x27;" + rest, "&gt;") && !StartsWith("&#x27;" + rest, "&quot;")
  {
    assert ("&#x27;" + rest)[1] == '#';
  }

  /** Escaping loses nothing: unescaping gives the text back. */
  lemma {:induction false} EscapeRoundTrip(s: string)
    ensures Unescape(Escape(s)) == s
    decreases |s|
  {
    if |s| > 0 {
      EscapeRoundTrip(s[1..]);
      UnescapeCons(s[0], Escape(s[1..]));
      assert s == [s[0]] + s[1..];
    }
  }

  /** The escaped text holds none of the characters that delimit markup or
      attribute values. */
  lemma {:induction false} EscapeClean(s: string)
    ensures forall c :: c in Escape(s) ==> c != '<' && c != '>' && c != '"' && c != '\''
    decreases |s|
  {
    if |s| > 0 {
      EscapeClean(s[1..]);
    }
  }

  // ---------------------------------------------------------------------
  // _slug

  /** `_slug(text)`: lower-case, spaces and slashes to "-", "#" and ":"
      dropped. */
  function Slug(text: string): string {
    ReplaceAll(ReplaceAll(ReplaceAll(ReplaceAll(Lower(text), " ", "-"), "/", "-"), "#", ""), ":", "")
  }

  /** A slug holds no space, slash, "#" or ":" and no upper-case ASCII
      letter, and slugging a slug changes nothing. */
  lemma SlugClean(text: string)
    ensures ' ' !in Slug(text) && '/' !in Slug(text) && '#' !in Slug(text) && ':' !in Slug(text)
    ensures forall c :: c in Slug(text) ==> LowerChar(c) == c
    ensures Slug(Slug(text)) == Slug(text)
  {
    var s0 := Lower(text);
    var s1 := ReplaceAll(s0, " ", "-");
    var s2 := ReplaceAll(s1, "/", "-");
    var s3 := ReplaceAll(s2, "#", "");
    var s4 := ReplaceAll(s3, ":", "");
    assert " " == [' '] && "/" == ['/'] && "#" == ['#'] && ":" == [':'];
    ReplaceCharGone(s0, ' ', "-");
    ReplaceCharGone(s1, '/', "-");
    ReplaceCharGone(s2, '#', "");
    ReplaceCharGone(s3, ':', "");
    ReplaceAllChars(s0, " ", "-");
    ReplaceAllChars(s1, "/", "-");
    ReplaceAllChars(s2, "#", "");
    ReplaceAllChars(s3, ":", "");
    assert forall c :: c in s0 ==> LowerChar(c) == c;
    assert Lower(s4) == s4;
    ReplaceCharAbsent(s4, ' ', "-");
    ReplaceCharAbsent(s4, '/', "-");
    ReplaceCharAbsent(s4, '#', "");
    ReplaceCharAbsent(s4, ':', "");
  }

  /** The anchor of a section: `cls-` and the slug of `str(cls)`. */
  function Anchor(cls: Option<string>): string {
    "cls-" + Slug(if cls.Some? then cls.value else "None")
  }

  // ---------------------------------------------------------------------
  // _render_evidence, _render_citations, _render_hits

  /** The block an empty list renders as. */
  function NoneBlock(title: string): string {
    BlockOpen + title + NoneTail
  }

  const BlockOpen := "<div class=\"block\"><h3 class=\"label\">"
  const NoneTail := "</h3><div class=\"text muted\">(none)</div></div>"

  /** `f"p{page}"`, or "p?" without a page. */
  function EvidencePage(page: Option<int>): string {
    if page.Some? then "p" + IntToString(page.value) else "p?"
  }

  function EvidenceLine(i: nat, ev: EvidenceItem): string {
    "<strong>Evidence " + NatToString(i) + " (" + EvidencePage(ev.page) + "):</strong> " + Esc(ev.text)
  }

  /** The lines of the evidence block, numbered from 1. */
  function EvidenceLines(rows: seq<EvidenceItem>): (r: seq<string>)
    ensures |r| == |rows|
  {
    seq(|rows|, i requires 0 <= i < |rows| => EvidenceLine(i + 1, rows[i]))
  }

  const EvidenceHead := "<div class=\"block\"><h3 class=\"label\">Evidence (dataset)</h3><div class=\"text\">"
  const CitationsHead := "<div class=\"block\"><h3 class=\"label\">Citations</h3><ul class=\"citations\">"
  const HitsHead := "<div class=\"block\"><h3 class=\"label\">Top-K</h3><ol class=\"hits\">"

  function EvidenceHtml(rows: seq<EvidenceItem>): string {
    if |rows| == 0 then NoneBlock("Evidence (dataset)")
    else EvidenceHead + (Join("<br>", EvidenceLines(rows)) + "</div></div>")
  }

  /** `_render_evidence(rows)` */
  method RenderEvidence(rows: seq<EvidenceItem>) returns (html: string)
    ensures html == EvidenceHtml(rows)
  {
    if |rows| == 0 {
      return NoneBlock("Evidence (dataset)");
    }
    var lines: seq<string> := [];
    for i := 0 to |rows|
      invariant lines == EvidenceLines(rows)[..i]
    {
      lines := lines + [EvidenceLine(i + 1, rows[i])];
    }
    assert lines == EvidenceLines(rows);
    html := EvidenceHead + (Join("<br>", lines) + "</div></div>");
  }

  /** A citation row: its number and its text. */
  datatype CitationRow = CitationRow(i: Option<int>, text: Option<string>)

  function CitationItem(row: CitationRow): string {
    var idx := if row.i.Some? then Some(IntToString(row.i.value)) else None;
    var text := if row.text.Some? && row.text.value != "" then row.text.value else "";
    "<li><strong>[" + Esc(idx) + "]</strong> " + Esc(Some(text)) + "</li>"
  }

  function CitationsHtml(rows: seq<CitationRow>): string {
    if |rows| == 0 then NoneBlock("Citations")
    else CitationsHead + (Join("", Map(rows, CitationItem)) + "</ul></div>")
  }

  /** `_render_citations(rows)` */
  method RenderCitations(rows: seq<CitationRow>) returns (html: string)
    ensures html == CitationsHtml(rows)
  {
    if |rows| == 0 {
      return NoneBlock("Citations");
    }
    var items: seq<string> := [];
    for i := 0 to |rows|
      invariant items == Map(rows, CitationItem)[..i]
    {
      items := items + [CitationItem(rows[i])];
    }
    assert items == Map(rows, CitationItem);
    html := CitationsHead + (Join("", items) + "</ul></div>");
  }

  /** A retrieved hit as stored in the record. */
  datatype HitRow = HitRow(text: Option<string>, etype: Option<string>, pageStart: Option<int>, pageEnd: Option<int>)

  /** The page label of a hit. */
  function HitPages(pageStart: Option<int>, pageEnd: Option<int>): string {
    if pageStart.Some? && pageEnd.Some? && pageStart.value != pageEnd.value then
      "(p" + IntToString(pageStart.value) + "-" + IntToString(pageEnd.value) + ")"
    else if pageStart.Some? then "(p" + IntToString(pageStart.value) + ")"
    else ""
  }

  /** A range when both pages are known and differ, the start page alone when
      only it is known or both are equal, and nothing without a start page. */
  lemma HitPagesRules(pageStart: Option<int>, pageEnd: Option<int>)
    ensures HitPages(pageStart, pageEnd) == "" <==> pageStart.None?
    ensures pageStart.Some? && (pageEnd.None? || pageEnd == pageStart) ==>
              HitPages(pageStart, pageEnd) == "(p" + IntToString(pageStart.value) + ")"
    ensures pageStart.Some? && pageEnd.Some? && pageStart != pageEnd ==>
              HitPages(pageStart, pageEnd)
              == "(p" + IntToString(pageStart.value) + "-" + IntToString(pageEnd.value) + ")"
  {
  }

  /** One hit; its text and type go in as they are, newlines turned into
      spaces. */
  function HitItem(hit: HitRow): string {
    var text := ReplaceAll(hit.text.GetOr(""), "\n", " ");
    var etype := if hit.etype.Some? && hit.etype.value != "" then hit.etype.value else "text";
    "<li><span class=\"hit-num\">[" + etype + "] " + HitPages(hit.pageStart, hit.pageEnd)
    + "</span><span class=\"hit-body\"> " + text + " </span></li>"
  }

  function HitsHtml(rows: seq<HitRow>): string {
    if |rows| == 0 then NoneBlock("Top-K")
    else HitsHead + (Join("", Map(rows, HitItem)) + "</ol></div>")
  }

  /** `_render_hits(rows)` */
  method RenderHits(rows: seq<HitRow>) returns (html: string)
    ensures html == HitsHtml(rows)
  {
    if |rows| == 0 {
      return NoneBlock("Top-K");
    }
    var items: seq<string> := [];
    for i := 0 to |rows|
      invariant items == Map(rows, HitItem)[..i]
    {
      items := items + [HitItem(rows[i])];
    }
    assert items == Map(rows, HitItem);
    html := HitsHead + (Join("", items) + "</ol></div>");
  }

  /** Two strings that differ at position `k` of a prefix stay different
      whatever follows the prefix. */
  lemma DifferAt(p: string, x: string, q: string, k: nat)
    requires k < |p| && k < |q| && p[k] != q[k]
    ensures p + x != q
  {
    assert (p + x)[k] == p[k];
  }

  /** Each block is the "(none)" block exactly when its list is empty. */
  lemma EvidenceNoneIffEmpty(rows: seq<EvidenceItem>)
    ensures EvidenceHtml(rows) == NoneBlock("Evidence (dataset)") <==> |rows| == 0
  {
    if |rows| > 0 {
      assert |BlockOpen| == 37;
      assert EvidenceHead[76] == '"';
      assert NoneBlock("Evidence (dataset)")[76] == NoneTail[21] == ' ';
      DifferAt(EvidenceHead, Join("<br>", EvidenceLines(rows)) + "</div></div>", NoneBlock("Evidence (dataset)"), 76);
    }
  }

  lemma CitationsNoneIffEmpty(rows: seq<CitationRow>)
    ensures CitationsHtml(rows) == NoneBlock("Citations") <==> |rows| == 0
  {
    if |rows| > 0 {
      assert |BlockOpen| == 37;
      assert CitationsHead[52] == 'u';
      assert NoneBlock("Citations")[52] == NoneTail[6] == 'd';
      DifferAt(CitationsHead, Join("", Map(rows, CitationItem)) + "</ul></div>", NoneBlock("Citations"), 52);
    }
  }

  lemma HitsNoneIffEmpty(rows: seq<HitRow>)
    ensures HitsHtml(rows) == NoneBlock("Top-K") <==> |rows| == 0
  {
    if |rows| > 0 {
      assert |BlockOpen| == 37;
      assert HitsHead[48] == 'o';
      assert NoneBlock("Top-K")[48] == NoneTail[6] == 'd';
      DifferAt(HitsHead, Join("", Map(rows, HitItem)) + "</ol></div>", NoneBlock("Top-K"), 48);
    }
  }

  // ---------------------------------------------------------------------
  // Evidence backfill

  /** A dataset row, as far as the backfill reads it. */
  datatype DatasetRow = DatasetRow(docName: Option<string>, question: Option<string>,
                                   evidence: Option<seq<EvidenceItem>>)

  /** A record of the evaluation log, as far as the report reads it. */
  datatype EvalRecord = EvalRecord(
    docName: Option<string>,
    question: Option<string>,
    classification: Field<string>,
    evidence: Option<seq<EvidenceItem>>,
    citations: Option<seq<CitationRow>>,
    hits: Option<seq<HitRow>>,
    questionType: Option<string>,
    groundTruth: Option<string>,
    answer: Option<string>,
    reasoning: Option<string>,
    evalReasoning: Option<string>)

  datatype EvidenceKey = EvidenceKey(docName: Option<string>, question: Option<string>)

  /** The evidence index built from the dataset: for each (document,
      question) the evidence of its last row, empty when missing. */
  function EvidenceIndex(lines: seq<string>, parse: string -> DatasetRow): map<EvidenceKey, seq<EvidenceItem>> {
    if |lines| == 0 then map[]
    else
      var before := EvidenceIndex(lines[..|lines| - 1], parse);
      var line := lines[|lines| - 1];
      if Strip(line) == "" then before
      else
        var row := parse(line);
        before[EvidenceKey(row.docName, row.question) := row.evidence.GetOr([])]
  }

  lemma EvidenceIndexStep(lines: seq<string>, i: nat, parse: string -> DatasetRow)
    requires i < |lines|
    ensures EvidenceIndex(lines[..i + 1], parse)
            == if Strip(lines[i]) == "" then EvidenceIndex(lines[..i], parse)
               else EvidenceIndex(lines[..i], parse)[EvidenceKey(parse(lines[i]).docName, parse(lines[i]).question)
                                                      := parse(lines[i]).evidence.GetOr([])]
  {
    assert lines[..i + 1][..i] == lines[..i];
  }

  /** The loop that fills `evidence_idx`. */
  method BuildEvidenceIndex(lines: seq<string>, parse: string -> DatasetRow)
    returns (idx: map<EvidenceKey, seq<EvidenceItem>>)
    ensures idx == EvidenceIndex(lines, parse)
  {
    idx := map[];
    for i := 0 to |lines|
      invariant idx == EvidenceIndex(lines[..i], parse)
    {
      EvidenceIndexStep(lines, i, parse);
      if Strip(lines[i]) == "" {
        continue;
      }
      var row := parse(lines[i]);
      idx := idx[EvidenceKey(row.docName, row.question) := row.evidence.GetOr([])];
    }
    assert lines[..|lines|] == lines;
  }

  /** A later dataset row for the same document and question wins. */
  lemma {:induction false} EvidenceIndexLast(lines: seq<string>, parse: string -> DatasetRow, i: nat)
    requires i < |lines| && Strip(lines[i]) != ""
    requires forall j :: i < j < |lines| && Strip(lines[j]) != "" ==>
               EvidenceKey(parse(lines[j]).docName, parse(lines[j]).question)
               != EvidenceKey(parse(lines[i]).docName, parse(lines[i]).question)
    ensures var key := EvidenceKey(parse(lines[i]).docName, parse(lines[i]).question);
            key in EvidenceIndex(lines, parse) && EvidenceIndex(lines, parse)[key] == parse(lines[i]).evidence.GetOr([])
    decreases |lines|
  {
    if i < |lines| - 1 {
      var u := lines[..|lines| - 1];
      assert forall j :: 0 <= j < |u| ==> u[j] == lines[j];
      EvidenceIndexLast(u, parse, i);
    }
  }

  /** The record after the backfill: its own evidence when it has any, the
      dataset's when the key is indexed, and otherwise as it was. */
  function Backfill(rec: EvalRecord, idx: map<EvidenceKey, seq<EvidenceItem>>): EvalRecord {
    var key := EvidenceKey(rec.docName, rec.question);
    if (rec.evidence.None? || rec.evidence.value == []) && key in idx then rec.(evidence := Some(idx[key]))
    else rec
  }

  /** Only the evidence changes, and only when the record had none and the
      dataset indexes its document and question. */
  lemma BackfillRules(rec: EvalRecord, idx: map<EvidenceKey, seq<EvidenceItem>>)
    ensures Backfill(rec, idx).(evidence := rec.evidence) == rec
    ensures Backfill(rec, idx).evidence != rec.evidence ==>
              (rec.evidence.None? || rec.evidence.value == []) && EvidenceKey(rec.docName, rec.question) in idx
    ensures (rec.evidence.None? || rec.evidence.value == []) && EvidenceKey(rec.docName, rec.question) in idx ==>
              Backfill(rec, idx).evidence == Some(idx[EvidenceKey(rec.docName, rec.question)])
    ensures rec.evidence.Some? && rec.evidence.value != [] ==> Backfill(rec, idx) == rec
  {
  }

  /** One line of the log: stripped, parsed and backfilled. */
  function LoadLine(parse: string -> EvalRecord, idx: map<EvidenceKey, seq<EvidenceItem>>): string -> EvalRecord {
    line => Backfill(parse(Strip(line)), idx)
  }

  /** The records of the log, one per non-blank line, in order. */
  function Loaded(lines: seq<string>, parse: string -> EvalRecord,
                  idx: map<EvidenceKey, seq<EvidenceItem>>): seq<EvalRecord> {
    Map(Sorting.Filter(lines, NonBlankLine), LoadLine(parse, idx))
  }

  lemma LoadedStep(lines: seq<string>, i: nat, parse: string -> EvalRecord, idx: map<EvidenceKey, seq<EvidenceItem>>)
    requires i < |lines|
    ensures Loaded(lines[..i + 1], parse, idx)
            == Loaded(lines[..i], parse, idx) + if NonBlankLine(lines[i]) then [LoadLine(parse, idx)(lines[i])] else []
  {
    var line := lines[i];
    assert lines[..i + 1] == lines[..i] + [line];
    Sorting.FilterAppend(lines[..i], [line], NonBlankLine);
    Sorting.FilterSingle(line, NonBlankLine);
    MapAppend(Sorting.Filter(lines[..i], NonBlankLine), if NonBlankLine(line) then [line] else [], LoadLine(parse, idx));
  }

  /** The loop that reads the evaluation log into `records`. */
  method LoadRecords(lines: seq<string>, parse: string -> EvalRecord, idx: map<EvidenceKey, seq<EvidenceItem>>)
    returns (records: seq<EvalRecord>)
    ensures records == Loaded(lines, parse, idx)
  {
    records := [];
    for i := 0 to |lines|
      invariant records == Loaded(lines[..i], parse, idx)
    {
      LoadedStep(lines, i, parse, idx);
      var line := Strip(lines[i]);
      if line == "" {
        continue;
      }
      var rec := parse(line);
      if rec.evidence.None? || rec.evidence.value == [] {
        var key := EvidenceKey(rec.docName, rec.question);
        if key in idx {
          rec := rec.(evidence := Some(idx[key]));
        }
      }
      records := records + [rec];
    }
    assert lines[..|lines|] == lines;
  }

  /** Every record of the log is the parse of a non-blank line, with evidence
      when it had its own or the dataset knows its question. */
  lemma LoadedMeaning(lines: seq<string>, parse: string -> EvalRecord, idx: map<EvidenceKey, seq<EvidenceItem>>)
    ensures |Loaded(lines, parse, idx)| == |Sorting.Filter(lines, NonBlankLine)|
    ensures forall k :: 0 <= k < |Loaded(lines, parse, idx)| ==>
              var line := Sorting.Filter(lines, NonBlankLine)[k];
              var rec := parse(Strip(line));
              line in lines && Strip(line) != ""
              && Loaded(lines, parse, idx)[k].(evidence := rec.evidence) == rec
              && (rec.evidence.Some? && rec.evidence.value != [] ==> Loaded(lines, parse, idx)[k] == rec)
              && ((rec.evidence.None? || rec.evidence.value == []) && EvidenceKey(rec.docName, rec.question) in idx
                  ==> Loaded(lines, parse, idx)[k].evidence == Some(idx[EvidenceKey(rec.docName, rec.question)]))
  {
    var kept := Sorting.Filter(lines, NonBlankLine);
    forall k | 0 <= k < |kept|
      ensures kept[k] in lines && Strip(kept[k]) != ""
    {
      assert kept[k] in kept;
    }
  }

  // ---------------------------------------------------------------------
  // Grouping by classification

  /** `rec.get("eval_classification", "UNKNOWN")` */
  function ClassOf(rec: EvalRecord): Option<string> {
    rec.classification.GetOrNull("UNKNOWN")
  }

  function InClass(cls: Option<string>): EvalRecord -> bool {
    rec => ClassOf(rec) == cls
  }

  /** The records of one class, in their order. */
  function Group(records: seq<EvalRecord>, cls: Option<string>): seq<EvalRecord> {
    Sorting.Filter(records, InClass(cls))
  }

  lemma GroupStep(records: seq<EvalRecord>, i: nat, cls: Option<string>)
    requires i < |records|
    ensures Group(records[..i + 1], cls)
            == Group(records[..i], cls) + if ClassOf(records[i]) == cls then [records[i]] else []
  {
    assert records[..i + 1] == records[..i] + [records[i]];
    Sorting.FilterAppend(records[..i], [records[i]], InClass(cls));
    Sorting.FilterSingle(records[i], InClass(cls));
  }

  lemma {:induction false} GroupEmpty(records: seq<EvalRecord>, cls: Option<string>)
    requires cls !in Elements(Map(records, ClassOf))
    ensures Group(records, cls) == []
    decreases |records|
  {
    if |records| > 0 {
      assert Map(records, ClassOf)[0] == ClassOf(records[0]);
      assert Map(records[1..], ClassOf) == Map(records, ClassOf)[1..];
      GroupEmpty(records[1..], cls);
    }
  }

  /** The loop that fills `grouped`. */
  method GroupRecords(records: seq<EvalRecord>) returns (grouped: map<Option<string>, seq<EvalRecord>>)
    ensures grouped.Keys == Elements(Map(records, ClassOf))
    ensures forall cls :: cls in grouped ==> grouped[cls] == Group(records, cls)
  {
    grouped := map[];
    for i := 0 to |records|
      invariant grouped.Keys == Elements(Map(records[..i], ClassOf))
      invariant forall cls :: cls in grouped ==> grouped[cls] == Group(records[..i], cls)
    {
      var cls := ClassOf(records[i]);
      assert Map(records[..i + 1], ClassOf) == Map(records[..i], ClassOf) + [cls];
      forall c | c in grouped
        ensures Group(records[..i + 1], c) == Group(records[..i], c) + if cls == c then [records[i]] else []
      {
        GroupStep(records, i, c);
      }
      GroupStep(records, i, cls);
      if cls !in grouped {
        GroupEmpty(records[..i], cls);
      }
      grouped := grouped[cls := (if cls in grouped then grouped[cls] else []) + [records[i]]];
    }
    assert records[..|records|] == records;
  }

  /** `sorted()` on the classes: None sorts only alone (against a string it
      raises), strings by code point. */
  function ClassLeq(): (Option<string>, Option<string>) -> bool {
    (a: Option<string>, b: Option<string>) => a.None? || (b.Some? && Sorting.StrLeq(a.value, b.value))
  }

  /** The section order: the classes in sorted order, or the `TypeError`
      that comparing None with a string raises. */
  function SectionOrder(records: seq<EvalRecord>): Result<seq<Option<string>>, string> {
    var classes := Dedup(Map(records, ClassOf));
    if None in classes && |classes| > 1 then Err("TypeError")
    else Ok(Sorting.SortBy(classes, ClassLeq()))
  }

  /** The records in report order: section by section. */
  function Report(records: seq<EvalRecord>, order: seq<Option<string>>): seq<EvalRecord> {
    if |order| == 0 then [] else Group(records, order[0]) + Report(records, order[1..])
  }

  lemma ClassLeqOrder()
    ensures Sorting.TotalPreorder(ClassLeq())
  {
    forall a: Option<string>, b: Option<string>
      ensures ClassLeq()(a, b) || ClassLeq()(b, a)
    {
      if a.Some? && b.Some? {
        Sorting.StrLeqTotal(a.value, b.value);
      }
    }
    forall a: Option<string>, b: Option<string>, c: Option<string> | ClassLeq()(a, b) && ClassLeq()(b, c)
      ensures ClassLeq()(a, c)
    {
      if a.Some? {
        Sorting.StrLeqTrans(a.value, b.value, c.value);
      }
    }
  }

  /** The tail of a sequence without repetitions has none either, and does
      not hold the head. */
  lemma DistinctTail<T>(s: seq<T>)
    requires |s| > 0 && Distinct(s)
    ensures Distinct(s[1..]) && s[0] !in s[1..]
  {
    var rest := s[1..];
    forall i, j | 0 <= i < j < |rest| ensures rest[i] != rest[j] {
      assert rest[i] == s[i + 1] && rest[j] == s[j + 1];
    }
    forall j | 0 <= j < |rest| ensures rest[j] != s[0] {
      assert rest[j] == s[j + 1];
    }
  }

  /** The records one more record adds to a report: itself when its class
      has a section. */
  function Added(r: EvalRecord, order: seq<Option<string>>): multiset<EvalRecord> {
    if ClassOf(r) in order then multiset{r} else multiset{}
  }

  lemma AddedCons(r: EvalRecord, order: seq<Option<string>>)
    requires |order| > 0 && order[0] !in order[1..]
    ensures Added(r, order) == multiset(if ClassOf(r) == order[0] then [r] else []) + Added(r, order[1..])
  {
    assert order == [order[0]] + order[1..];
  }

  lemma GroupSnoc(records: seq<EvalRecord>, r: EvalRecord, cls: Option<string>)
    ensures multiset(Group(records + [r], cls))
            == multiset(Group(records, cls)) + multiset(if ClassOf(r) == cls then [r] else [])
  {
    Sorting.FilterAppend(records, [r], InClass(cls));
    Sorting.FilterSingle(r, InClass(cls));
  }

  lemma ReportCons(records: seq<EvalRecord>, order: seq<Option<string>>)
    requires |order| > 0
    ensures multiset(Report(records, order)) == multiset(Group(records, order[0])) + multiset(Report(records, order[1..]))
  {
  }

  /** Adding one record to the log adds it to exactly the one section of
      its class, when that class is in the order. */
  lemma {:induction false} ReportSnoc(records: seq<EvalRecord>, r: EvalRecord, order: seq<Option<string>>)
    requires Distinct(order)
    ensures multiset(Report(records + [r], order)) == multiset(Report(records, order)) + Added(r, order)
    decreases |order|
  {
    if |order| > 0 {
      DistinctTail(order);
      ReportSnoc(records, r, order[1..]);
      GroupSnoc(records, r, order[0]);
      AddedCons(r, order);
      ReportCons(records, order);
      ReportCons(records + [r], order);
    }
  }

  /** Sections over distinct classes that cover every record show each
      record exactly once. */
  lemma {:induction false} ReportPermutation(records: seq<EvalRecord>, order: seq<Option<string>>)
    requires Distinct(order)
    requires forall i :: 0 <= i < |records| ==> ClassOf(records[i]) in order
    ensures multiset(Report(records, order)) == multiset(records)
    decreases |records|
  {
    if |records| == 0 {
      ReportEmpty(order);
    } else {
      var u := records[..|records| - 1];
      var r := records[|records| - 1];
      ReportPermutation(u, order);
      ReportSnoc(u, r, order);
      assert records == u + [r];
    }
  }

  lemma {:induction false} ReportEmpty(order: seq<Option<string>>)
    ensures Report([], order) == []
    decreases |order|
  {
    if |order| > 0 {
      ReportEmpty(order[1..]);
    }
  }

  /** Sorting the classes raises exactly when the log holds a null class
      next to a string class. */
  lemma SectionOrderErr(records: seq<EvalRecord>)
    ensures SectionOrder(records).Err? <==>
              None in Map(records, ClassOf) && exists i :: 0 <= i < |records| && ClassOf(records[i]).Some?
  {
    var m := Map(records, ClassOf);
    var classes := Dedup(m);
    if None in classes && |classes| > 1 {
      var c := if classes[0] == None then classes[1] else classes[0];
      assert c != None;
      assert c in m;
      var i :| 0 <= i < |m| && m[i] == c;
      assert ClassOf(records[i]).Some?;
    }
    if None in m && exists i :: 0 <= i < |records| && ClassOf(records[i]).Some? {
      var i :| 0 <= i < |records| && ClassOf(records[i]).Some?;
      assert m[i] in classes;
      var j :| 0 <= j < |classes| && classes[j] == m[i];
      var k :| 0 <= k < |classes| && classes[k] == None;
      assert j != k;
    }
  }

  /** When sorting succeeds, the sections come in sorted order, hold each
      class of the log once, and show every record exactly once, each
      section keeping the order of the log. */
  lemma SectionOrderOk(records: seq<EvalRecord>)
    requires SectionOrder(records).Ok?
    ensures var order := SectionOrder(records).value;
            Sorting.Sorted(order, ClassLeq()) && Distinct(order)
            && (forall cls :: cls in order <==> cls in Map(records, ClassOf))
            && multiset(Report(records, order)) == multiset(records)
  {
    var classes := Dedup(Map(records, ClassOf));
    var order := SectionOrder(records).value;
    ClassLeqOrder();
    Sorting.SortBySorted(classes, ClassLeq());
    DistinctPermutation(classes, order);
    Sorting.SortByMembers(classes, ClassLeq());
    forall i | 0 <= i < |records|
      ensures ClassOf(records[i]) in order
    {
      assert Map(records, ClassOf)[i] in classes;
    }
    ReportPermutation(records, order);
  }

  // ---------------------------------------------------------------------
  // The page: table of contents, section headings and cards

  /** `_format_text_block(title, body)` */
  function TextBlock(title: string, body: Option<string>): string {
    BlockOpen + Escape(title) + "</h3><div class=\"text\">" + Esc(body) + "</div></div>"
  }

  /** `f"Question [{qtype}]" if qtype else "Question"` */
  function QuestionLabel(qtype: Option<string>): string {
    if qtype.Some? && qtype.value != "" then "Question [" + qtype.value + "]" else "Question"
  }

  /** `rec.get("reasoning") or rec.get("eval_reasoning") or ""` */
  function CardReasoning(rec: EvalRecord): string {
    if rec.reasoning.Some? && rec.reasoning.value != "" then rec.reasoning.value
    else if rec.evalReasoning.Some? && rec.evalReasoning.value != "" then rec.evalReasoning.value
    else ""
  }

  /** The lines of one record's card. */
  function Card(rec: EvalRecord): seq<string> {
    ["<div class=\"card\">",
     "<h2 class=\"doc\">" + Esc(rec.docName) + "</h2>",
     TextBlock(QuestionLabel(rec.questionType), rec.question),
     TextBlock("Ground Truth", rec.groundTruth),
     TextBlock("Generated Answer", rec.answer),
     TextBlock("Eval Reasoning", Some(CardReasoning(rec))),
     EvidenceHtml(rec.evidence.GetOr([])),
     CitationsHtml(rec.citations.GetOr([])),
     HitsHtml(rec.hits.GetOr([])),
     "</div>"]
  }

  const CardLines := 10

  /** The cards of a section's records, one after another. */
  function Cards(recs: seq<EvalRecord>): (r: seq<string>)
    ensures |r| == CardLines * |recs|
  {
    if |recs| == 0 then [] else Card(recs[0]) + Cards(recs[1..])
  }

  /** The label and count of a class, as the contents link and the heading show it. */
  function ClassCount(cls: Option<string>, n: nat): string {
    Esc(cls) + " (" + NatToString(n) + ")"
  }

  function TocLinks(records: seq<EvalRecord>, order: seq<Option<string>>): (r: seq<string>)
    ensures |r| == |order|
  {
    seq(|order|, i requires 0 <= i < |order| =>
      "<a href=\"#" + Anchor(order[i]) + "\">" + ClassCount(order[i], |Group(records, order[i])|) + "</a>")
  }

  /** Each section: its heading, then the cards of its records. */
  function SectionLines(records: seq<EvalRecord>, order: seq<Option<string>>): seq<string> {
    if |order| == 0 then []
    else
      var items := Group(records, order[0]);
      ["<h2 id=\"" + Anchor(order[0]) + "\">" + ClassCount(order[0], |items|) + "</h2>"]
      + Cards(items) + SectionLines(records, order[1..])
  }

  /** The lines of the report, `head` being the fixed head, style and title
      lines; the file is these lines joined by newlines. */
  function PageLines(head: seq<string>, records: seq<EvalRecord>, order: seq<Option<string>>): seq<string> {
    head + ["<div>Total records: " + NatToString(|records|) + "</div>", "<div class=\"toc\">"]
    + TocLinks(records, order) + ["</div>"] + SectionLines(records, order) + ["</body>", "</html>"]
  }

  /** A question type labels the question only when it is truthy. */
  lemma QuestionLabelRules(qtype: Option<string>)
    ensures QuestionLabel(qtype) == "Question" <==> qtype.None? || qtype.value == ""
    ensures qtype.Some? && qtype.value != "" ==> QuestionLabel(qtype) == "Question [" + qtype.value + "]"
  {
    if qtype.Some? && qtype.value != "" {
      assert |QuestionLabel(qtype)| > |"Question"|;
    }
  }

  /** The card shows the batch evaluator's `reasoning` when it is non-empty,
      otherwise the older log's `eval_reasoning`, otherwise nothing; it is
      empty exactly when neither is set to a non-empty text. */
  lemma CardReasoningRules(rec: EvalRecord)
    ensures rec.reasoning.Some? && rec.reasoning.value != "" ==> CardReasoning(rec) == rec.reasoning.value
    ensures (rec.reasoning.None? || rec.reasoning.value == "") && rec.evalReasoning.Some? ==>
              CardReasoning(rec) == rec.evalReasoning.value
    ensures CardReasoning(rec) == "" <==>
              (rec.reasoning.None? || rec.reasoning.value == "") && (rec.evalReasoning.None? || rec.evalReasoning.value == "")
  {
  }

  /** A card's evidence block is the "(none)" block exactly when the record
      has no evidence. */
  lemma CardEvidenceNone(rec: EvalRecord)
    ensures Card(rec)[6] == NoneBlock("Evidence (dataset)") <==> |rec.evidence.GetOr([])| == 0
  {
    EvidenceNoneIffEmpty(rec.evidence.GetOr([]));
  }

  /** A card's citation block is the "(none)" block exactly when the record
      has no citations. */
  lemma CardCitationsNone(rec: EvalRecord)
    ensures Card(rec)[7] == NoneBlock("Citations") <==> |rec.citations.GetOr([])| == 0
  {
    CitationsNoneIffEmpty(rec.citations.GetOr([]));
  }

  /** A card's hit block is the "(none)" block exactly when the record has
      no retrieved hits. */
  lemma CardHitsNone(rec: EvalRecord)
    ensures Card(rec)[8] == NoneBlock("Top-K") <==> |rec.hits.GetOr([])| == 0
  {
    HitsNoneIffEmpty(rec.hits.GetOr([]));
  }

  /** The sections hold one heading per class and one card per record in
      report order. */
  lemma {:induction false} SectionLinesLength(records: seq<EvalRecord>, order: seq<Option<string>>)
    ensures |SectionLines(records, order)| == |order| + CardLines * |Report(records, order)|
    decreases |order|
  {
    if |order| > 0 {
      SectionLinesLength(records, order[1..]);
    }
  }

  /** When the classes sort, the page holds one contents link and one
      heading per class and exactly one card per record. */
  lemma PageOneCardPerRecord(head: seq<string>, records: seq<EvalRecord>)
    requires SectionOrder(records).Ok?
    ensures var order := SectionOrder(records).value;
            |PageLines(head, records, order)| == |head| + 2 * |order| + CardLines * |records| + 5
  {
    var order := SectionOrder(records).value;
    SectionOrderOk(records);
    SectionLinesLength(records, order);
    assert |Report(records, order)| == |multiset(Report(records, order))| == |multiset(records)| == |records|;
  }
}
