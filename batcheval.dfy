/** The batch evaluator over the FinanceBench question file: the question
    filter, the Ollama host lists, the per-question record (with the record
    written when any stage raises), the host chosen for each question, and
    the results put back into question order before they are written. The
    QA graph and the judge are parameters. */
module BatchEval {
  import opened Wrappers
  import opened Text
  import opened Values
  import opened Lists
  import Sorting
  import Evaluate

  /** One evidence entry of a question row: a dictionary or anything else. */
  datatype Evidence = EvidenceDict(text: Option<string>, page: Option<int>) | NotADict

  /** A question row of the dataset. */
  datatype QRow = QRow(
    docName: Field<Scalar>,
    questionType: Option<string>,
    question: Field<Scalar>,
    answer: Field<Scalar>,
    evidence: Option<seq<Evidence>>)

  // ---------------------------------------------------------------------
  // iter_questions

  predicate NonBlankLine(line: string) {
    Strip(line) != ""
  }

  /** `{name.strip() for name in allowed_docs if name.strip()}` (empty when
      the argument is empty). */
  function Allowed(docs: seq<string>): set<string> {
    set name | name in docs && Strip(name) != "" :: Strip(name)
  }

  /** `row.get("doc_name") in allowed`: only a string can be in the set. */
  predicate DocNameIn(row: QRow, allowed: set<string>) {
    row.docName.Has? && row.docName.value.Text? && row.docName.value.s in allowed
  }

  /** A row passes when the allowed set is empty or holds its document name. */
  function AdmittedBy(allowed: set<string>): QRow -> bool {
    row => allowed == {} || DocNameIn(row, allowed)
  }

  /** The rows `iter_questions` yields: the non-blank lines, parsed, then
      filtered by document name. */
  function Questions(lines: seq<string>, docs: seq<string>, parse: string -> QRow): seq<QRow> {
    Sorting.Filter(Map(Sorting.Filter(lines, NonBlankLine), parse), AdmittedBy(Allowed(docs)))
  }

  lemma QuestionsStep(lines: seq<string>, i: nat, docs: seq<string>, parse: string -> QRow)
    requires i < |lines|
    ensures Questions(lines[..i + 1], docs, parse)
            == Questions(lines[..i], docs, parse)
               + if NonBlankLine(lines[i]) && AdmittedBy(Allowed(docs))(parse(lines[i])) then [parse(lines[i])] else []
  {
    var line := lines[i];
    assert lines[..i + 1] == lines[..i] + [line];
    Sorting.FilterAppend(lines[..i], [line], NonBlankLine);
    Sorting.FilterSingle(line, NonBlankLine);
    var kept := Sorting.Filter(lines[..i], NonBlankLine);
    var last := if NonBlankLine(line) then [line] else [];
    MapAppend(kept, last, parse);
    assert Map(last, parse) == if NonBlankLine(line) then [parse(line)] else [];
    Sorting.FilterAppend(Map(kept, parse), Map(last, parse), AdmittedBy(Allowed(docs)));
    if NonBlankLine(line) {
      Sorting.FilterSingle(parse(line), AdmittedBy(Allowed(docs)));
    }
  }

  /** `iter_questions(dataset_path, allowed_docs)` over the lines of the file. */
  method IterQuestions(lines: seq<string>, docs: seq<string>, parse: string -> QRow) returns (out: seq<QRow>)
    ensures out == Questions(lines, docs, parse)
  {
    var allowed := Allowed(docs);
    out := [];
    for i := 0 to |lines|
      invariant out == Questions(lines[..i], docs, parse)
    {
      QuestionsStep(lines, i, docs, parse);
      if Strip(lines[i]) == "" {
        continue;
      }
      var row := parse(lines[i]);
      if allowed != {} && !DocNameIn(row, allowed) {
        continue;
      }
      out := out + [row];
    }
    assert lines[..|lines|] == lines;
  }

  /** An allow-list whose names are all blank filters nothing; otherwise
      every row yielded names an allowed document. Blank lines never yield
      a row, and rows keep the order of their lines. */
  lemma QuestionsMeaning(lines: seq<string>, docs: seq<string>, parse: string -> QRow)
    ensures (forall k :: 0 <= k < |docs| ==> Strip(docs[k]) == "") ==>
              Questions(lines, docs, parse) == Map(Sorting.Filter(lines, NonBlankLine), parse)
    ensures forall row :: row in Questions(lines, docs, parse) && Allowed(docs) != {} ==>
              DocNameIn(row, Allowed(docs))
    ensures forall row :: row in Questions(lines, docs, parse) ==>
              exists line :: line in lines && NonBlankLine(line) && row == parse(line)
  {
    var kept := Map(Sorting.Filter(lines, NonBlankLine), parse);
    if forall k :: 0 <= k < |docs| ==> Strip(docs[k]) == "" {
      assert Allowed(docs) == {};
      Sorting.FilterKeepsAll(kept, AdmittedBy(Allowed(docs)));
    }
    forall row | row in Questions(lines, docs, parse)
      ensures exists line :: line in lines && NonBlankLine(line) && row == parse(line)
    {
      var k :| 0 <= k < |kept| && kept[k] == row;
      assert Sorting.Filter(lines, NonBlankLine)[k] in Sorting.Filter(lines, NonBlankLine);
    }
  }

  // ---------------------------------------------------------------------
  // Ollama hosts

  /** The configured `ollama_hosts` / `hosts` value; list items stand for
      their `str()` forms, and `Other` for a value of another type. */
  datatype HostValue = HostStr(s: string) | HostList(items: seq<string>) | HostNone | Other

  /** `_normalize_hosts(raw)` */
  function NormalizeHosts(raw: HostValue): seq<string> {
    match raw
    case HostStr(s) => if Strip(s) != "" then [s] else []
    case HostList(items) => Map(Sorting.Filter(items, NonBlankLine), Strip)
    case _ => []
  }

  /** A string gives itself, unstripped, when it is not blank; a list gives
      its stripped non-blank items in order; anything else gives nothing.
      Every host returned is non-blank. */
  lemma NormalizeHostsRules(raw: HostValue)
    ensures raw.HostStr? ==> NormalizeHosts(raw) == if Strip(raw.s) != "" then [raw.s] else []
    ensures raw.HostList? ==>
              NormalizeHosts(raw) == Map(Sorting.Filter(raw.items, NonBlankLine), Strip)
              && |NormalizeHosts(raw)| <= |raw.items|
              && (forall h :: h in NormalizeHosts(raw) ==> exists x :: x in raw.items && h == Strip(x))
    ensures raw.HostNone? || raw.Other? ==> NormalizeHosts(raw) == []
    ensures forall h :: h in NormalizeHosts(raw) ==> Strip(h) != ""
  {
    if raw.HostList? {
      var kept := Sorting.Filter(raw.items, NonBlankLine);
      forall h | h in NormalizeHosts(raw)
        ensures Strip(h) != "" && exists x :: x in raw.items && h == Strip(x)
      {
        var k :| 0 <= k < |kept| && Map(kept, Strip)[k] == h;
        assert kept[k] in kept;
        StripOfClean(Strip(kept[k]));
      }
    }
  }

  /** `_resolve_hosts(cfg)`: the batch hosts, or the global ones when the
      batch hosts normalise to nothing. */
  function ResolveHosts(batchHosts: HostValue, globalHosts: HostValue): (r: seq<string>)
    ensures NormalizeHosts(batchHosts) != [] ==> r == NormalizeHosts(batchHosts)
    ensures NormalizeHosts(batchHosts) == [] ==> r == NormalizeHosts(globalHosts)
  {
    var hosts := NormalizeHosts(batchHosts);
    if hosts == [] then NormalizeHosts(globalHosts) else hosts
  }

  /** `hosts[idx % len(hosts)] if hosts else None` */
  function HostFor(idx: nat, hosts: seq<string>): Option<string> {
    if |hosts| > 0 then Some(hosts[idx % |hosts|]) else None
  }

  /** The host depends on the question index alone, repeats with the period
      of the host list, and question i of the first round gets host i. */
  lemma RoundRobin(idx: nat, hosts: seq<string>)
    ensures HostFor(idx, hosts).None? <==> hosts == []
    ensures HostFor(idx + |hosts|, hosts) == HostFor(idx, hosts)
    ensures idx < |hosts| ==> HostFor(idx, hosts) == Some(hosts[idx])
    ensures HostFor(idx, hosts).Some? ==> HostFor(idx, hosts).value in hosts
  {
    if |hosts| > 0 {
      ModShift(idx, |hosts|);
    }
  }

  /** A multiple of a positive `n` by a non-zero factor is at least `n` away from zero. */
  lemma MulAway(n: int, k: int)
    requires n > 0
    ensures k >= 1 ==> n * k >= n
    ensures k <= -1 ==> n * k <= -n
  {
    if k >= 1 {
      assert n * k == n * (k - 1) + n;
      assert n * (k - 1) >= 0;
    } else if k <= -1 {
      assert n * k == n * (k + 1) - n;
      assert n * (k + 1) <= 0;
    }
  }

  lemma ModShift(a: nat, n: nat)
    requires n > 0
    ensures (a + n) % n == a % n
  {
    var q, r := a / n, a % n;
    var q1, r1 := (a + n) / n, (a + n) % n;
    assert n * (q1 - q - 1) == r - r1;
    MulAway(n, q1 - q - 1);
  }

  /** `max(1, min(max_workers, len(rows)))` */
  function Workers(maxWorkers: int, rows: nat): (r: int)
    ensures 1 <= r
    ensures rows >= 1 ==> r <= rows
    ensures 1 <= maxWorkers <= rows ==> r == maxWorkers
  {
    var m := if maxWorkers < rows then maxWorkers else rows;
    if m < 1 then 1 else m
  }

  // ---------------------------------------------------------------------
  // _process_row

  datatype EvidenceItem = EvidenceItem(text: Option<string>, page: Option<int>)

  /** The state handed to the QA graph; the host only when it is non-empty. */
  datatype GraphState = GraphState(question: string, topk: int, sourceDoc: string, ollamaHost: Option<string>)

  /** The answer block: `answer` may be absent or null; citations may be
      missing or empty. */
  datatype AnswerBlock = AnswerBlock(answer: Field<string>, citations: Option<seq<int>>)

  datatype GraphResult<H> = GraphResult(answer: Option<AnswerBlock>, hits: Option<seq<H>>)

  datatype Judged = Judged(classification: Option<string>, reasoning: Option<string>)

  /** The record written for a question. */
  datatype Record<H> = Record(
    docName: string,
    questionType: Option<string>,
    question: string,
    groundTruth: string,
    evidence: seq<EvidenceItem>,
    answer: Option<string>,
    citations: seq<int>,
    hits: seq<H>,
    classification: Option<string>,
    reasoning: Option<string>,
    error: Option<string>)

  predicate IsDict(e: Evidence) {
    e.EvidenceDict?
  }

  function ItemOf(e: Evidence): EvidenceItem {
    match e
    case EvidenceDict(text, page) => EvidenceItem(text, page)
    case NotADict => EvidenceItem(None, None)
  }

  /** The evidence entries that are dictionaries, reduced to text and page. */
  function EvidenceItems(evidence: Option<seq<Evidence>>): seq<EvidenceItem> {
    Map(Sorting.Filter(evidence.GetOr([]), IsDict), ItemOf)
  }

  /** The record before the graph runs. */
  function BaseRecord<H>(row: QRow): Record<H> {
    Record(Strip(StrOf(row.docName)), row.questionType, Strip(StrOf(row.question)), Strip(StrOf(row.answer)),
           EvidenceItems(row.evidence), None, [], [], None, None, None)
  }

  function StateOf(row: QRow, topk: int, host: Option<string>): GraphState {
    GraphState(Strip(StrOf(row.question)), topk, Strip(StrOf(row.docName)),
               if host.Some? && host.value != "" then host else None)
  }

  /** The record when any stage raised. */
  function ErrorRecord<H>(base: Record<H>, message: string): Record<H> {
    base.(answer := Some(""), citations := [], hits := [], classification := Some("ERROR"),
          error := Some(message), reasoning := Some(""))
  }

  /** `_process_row(index, row, app, topk, host)`, given the graph and the
      judge; each returns a result or the exception it raised. */
  function ProcessRow<H>(index: nat, row: QRow, topk: int, host: Option<string>,
                         run: GraphState -> Result<GraphResult<H>, string>,
                         judge: (string, string, Option<string>, Option<string>) -> Result<Judged, string>)
    : (r: (nat, Record<H>, bool))
    ensures r.0 == index
    ensures var base: Record<H> := BaseRecord(row);
            r.1.docName == base.docName && r.1.question == base.question
            && r.1.groundTruth == base.groundTruth && r.1.evidence == base.evidence
            && r.1.questionType == row.questionType
    ensures r.2 ==> r.1.classification == Some("ERROR") && r.1.answer == Some("") && r.1.citations == []
                    && r.1.hits == [] && r.1.error.Some? && r.1.reasoning == Some("")
    ensures !r.2 ==> r.1.error.None?
    ensures r.2 <==> run(StateOf(row, topk, host)).Err?
                     || judge(r.1.question, r.1.groundTruth, AnswerOf(run(StateOf(row, topk, host)).value), host).Err?
    ensures var res := run(StateOf(row, topk, host));
            res.Err? ==> r.1.error == Some(res.error)
    ensures var res := run(StateOf(row, topk, host));
            res.Ok? ==>
              var verdict := judge(r.1.question, r.1.groundTruth, AnswerOf(res.value), host);
              && (verdict.Err? ==> r.1.error == Some(verdict.error))
              && (verdict.Ok? ==>
                    r.1.answer == AnswerOf(res.value) && r.1.citations == CitationsOf(res.value)
                    && r.1.hits == res.value.hits.GetOr([])
                    && r.1.classification == verdict.value.classification
                    && r.1.reasoning == verdict.value.reasoning)
  {
    var base := BaseRecord(row);
    var res := run(StateOf(row, topk, host));
    if res.Err? then (index, ErrorRecord(base, res.error), true)
    else
      var block := res.value.answer.GetOr(AnswerBlock(Absent, None));
      var modelAnswer := block.answer.GetOrNull("");
      var verdict := judge(base.question, base.groundTruth, modelAnswer, host);
      if verdict.Err? then (index, ErrorRecord(base, verdict.error), true)
      else
        (index, base.(answer := modelAnswer, citations := block.citations.GetOr([]),
                      hits := res.value.hits.GetOr([]), classification := verdict.value.classification,
                      reasoning := verdict.value.reasoning), false)
  }

  /** `answer_block.get("answer", "")` of a graph result. */
  function AnswerOf<H>(res: GraphResult<H>): Option<string> {
    res.answer.GetOr(AnswerBlock(Absent, None)).answer.GetOrNull("")
  }

  /** `answer_block.get("citations") or []` of a graph result. */
  function CitationsOf<H>(res: GraphResult<H>): seq<int> {
    res.answer.GetOr(AnswerBlock(Absent, None)).citations.GetOr([])
  }

  /** The judge as `_process_row` calls it: `qa_evaluate` takes no `host`
      parameter, so the call raises TypeError whatever its arguments. */
  function JudgeAsWritten(question: string, groundTruth: string, answer: Option<string>, host: Option<string>)
    : Result<Judged, string>
  {
    Err("qa_evaluate() got an unexpected keyword argument 'host'")
  }

  /** As written every question becomes an error record, whatever the graph
      returns. */
  lemma EveryRowErrorsAsWritten<H>(index: nat, row: QRow, topk: int, host: Option<string>,
                                   run: GraphState -> Result<GraphResult<H>, string>)
    ensures var r := ProcessRow(index, row, topk, host, run, JudgeAsWritten);
            r.2 && r.1.classification == Some("ERROR") && r.1.answer == Some("") && r.1.hits == []
            && r.1.error.Some?
  {
  }

  /** `qa_evaluate`'s dictionary as `_process_row` reads it: the dictionary
      has the keys `result`, `is_same` and `reasoning`, so
      `eval_result.get("classification")` is None. */
  function ReadVerdict(v: Evaluate.Verdict): Judged {
    Judged(None, v.reasoning)
  }

  /** As written, even a judge that does not raise leaves every successful
      record without a classification. */
  lemma ClassificationLostAsWritten<H>(index: nat, row: QRow, topk: int, host: Option<string>,
                                       run: GraphState -> Result<GraphResult<H>, string>,
                                       verdictOf: (string, string, Option<string>) -> Evaluate.Verdict,
                                       judge: (string, string, Option<string>, Option<string>) -> Result<Judged, string>)
    requires forall q, g, a, h :: judge(q, g, a, h) == Ok(ReadVerdict(verdictOf(q, g, a)))
    ensures var r := ProcessRow(index, row, topk, host, run, judge);
            run(StateOf(row, topk, host)).Ok? ==> !r.2 && r.1.classification.None?
  {
    var r := ProcessRow(index, row, topk, host, run, judge);
    var res := run(StateOf(row, topk, host));
    if res.Ok? {
      assert judge(r.1.question, r.1.groundTruth, AnswerOf(res.value), host).Ok?;
    }
  }

  // ---------------------------------------------------------------------
  // main: processing and re-sorting

  /** What each question yields, in question order. */
  function Expected<H>(rows: seq<QRow>, hosts: seq<string>, topk: int,
                       run: GraphState -> Result<GraphResult<H>, string>,
                       judge: (string, string, Option<string>, Option<string>) -> Result<Judged, string>)
    : (r: seq<(nat, Record<H>, bool)>)
    ensures |r| == |rows|
    ensures forall i :: 0 <= i < |r| ==> r[i].0 == i
  {
    seq(|rows|, i requires 0 <= i < |rows| => ProcessRow(i, rows[i], topk, HostFor(i, hosts), run, judge))
  }

  /** `results.sort(key=lambda item: item[0])` */
  function ByIndex<H(!new)>(): ((nat, Record<H>, bool), (nat, Record<H>, bool)) -> bool {
    (a: (nat, Record<H>, bool), b: (nat, Record<H>, bool)) => a.0 <= b.0
  }

  lemma ExpectedOrdered<H(!new)>(e: seq<(nat, Record<H>, bool)>)
    requires forall i :: 0 <= i < |e| ==> e[i].0 == i
    ensures Sorting.TotalPreorder(ByIndex<H>())
    ensures Sorting.Sorted(e, ByIndex<H>()) && Sorting.Strict(e, ByIndex<H>())
  {
  }

  /** Whatever order the workers finish in, sorting by index restores the
      question order. */
  lemma ResortRestoresOrder<H(!new)>(finished: seq<(nat, Record<H>, bool)>, rows: seq<QRow>, hosts: seq<string>, topk: int,
                               run: GraphState -> Result<GraphResult<H>, string>,
                               judge: (string, string, Option<string>, Option<string>) -> Result<Judged, string>)
    requires multiset(finished) == multiset(Expected(rows, hosts, topk, run, judge))
    ensures Sorting.SortBy(finished, ByIndex<H>()) == Expected(rows, hosts, topk, run, judge)
  {
    var e := Expected(rows, hosts, topk, run, judge);
    ExpectedOrdered(e);
    Sorting.SortByPermutation(finished, e, ByIndex<H>());
  }

  /** The number of error records. */
  function Errors<H>(results: seq<(nat, Record<H>, bool)>): (n: nat)
    ensures n <= |results|
  {
    if |results| == 0 then 0
    else Errors(results[..|results| - 1]) + if results[|results| - 1].2 then 1 else 0
  }

  lemma ExpectedAt<H>(rows: seq<QRow>, hosts: seq<string>, topk: int,
                      run: GraphState -> Result<GraphResult<H>, string>,
                      judge: (string, string, Option<string>, Option<string>) -> Result<Judged, string>, i: nat)
    requires i < |rows|
    ensures Expected(rows, hosts, topk, run, judge)[i] == ProcessRow(i, rows[i], topk, HostFor(i, hosts), run, judge)
  {
  }

  lemma ErrorsStep<H>(results: seq<(nat, Record<H>, bool)>, i: nat)
    requires i < |results|
    ensures Errors(results[..i + 1]) == Errors(results[..i]) + if results[i].2 then 1 else 0
  {
    assert results[..i + 1][..i] == results[..i];
  }

  /** `_process_row` for question `i` with its host. */
  method ProcessAt<H>(rows: seq<QRow>, hosts: seq<string>, topk: int,
                      run: GraphState -> Result<GraphResult<H>, string>,
                      judge: (string, string, Option<string>, Option<string>) -> Result<Judged, string>, i: nat)
    returns (outcome: (nat, Record<H>, bool))
    requires i < |rows|
    ensures outcome == Expected(rows, hosts, topk, run, judge)[i]
  {
    outcome := ProcessRow(i, rows[i], topk, HostFor(i, hosts), run, judge);
  }

  /** The sequential branch of `main` (`max_workers <= 1`): each question
      with its host, the counters, the re-sort and the records written. */
  method EvaluateRows<H(!new)>(rows: seq<QRow>, hosts: seq<string>, topk: int,
                         run: GraphState -> Result<GraphResult<H>, string>,
                         judge: (string, string, Option<string>, Option<string>) -> Result<Judged, string>)
    returns (written: seq<Record<H>>, processed: nat, errors: nat)
    ensures processed == |rows|
    ensures errors == Errors(Expected(rows, hosts, topk, run, judge))
    ensures |written| == |rows|
    ensures forall i :: 0 <= i < |rows| ==>
              written[i] == ProcessRow(i, rows[i], topk, HostFor(i, hosts), run, judge).1
  {
    ghost var e := Expected(rows, hosts, topk, run, judge);
    var results: seq<(nat, Record<H>, bool)> := [];
    processed, errors := 0, 0;
    for idx := 0 to |rows|
      invariant results == e[..idx]
      invariant processed == idx && errors == Errors(e[..idx])
    {
      var outcome := ProcessAt(rows, hosts, topk, run, judge, idx);
      ErrorsStep(e, idx);
      PrefixStep(e, idx, outcome);
      processed := processed + 1;
      errors := errors + if outcome.2 then 1 else 0;
      results := results + [outcome];
    }
    assert e[..|rows|] == e;
    ResortRestoresOrder(results, rows, hosts, topk, run, judge);
    results := Sorting.SortBy(results, ByIndex<H>());
    written := seq(|results|, i requires 0 <= i < |results| => results[i].1);
    forall i | 0 <= i < |rows|
      ensures written[i] == ProcessRow(i, rows[i], topk, HostFor(i, hosts), run, judge).1
    {
      ExpectedAt(rows, hosts, topk, run, judge, i);
    }
  }
}
