/** `analyser.py`: the orchestrator. It detects and resolves the source,
    extracts the content with the OCR engine, gathers the diagram generator's
    and the reviewer's tasks, and assembles the report with a summary and key
    points. The components are those of the model; the outside services they
    call (the download, the OCR model run, the renderer, the language model
    and the search) enter as their answers. */
module Analyser {
  import opened Text
  import opened Models
  import InputHandler
  import OcrDocument
  import DiagramGenerator
  import Reviewer
  import Paths

  // ---------------------------------------------------------------- summary

  const MethodKeywords: seq<string> := ["method", "approach", "proposed", "framework"]
  const ResultKeywords: seq<string> := ["results", "experiments", "evaluation"]
  const ConclusionKeywords: seq<string> := ["conclusion"]

  /** Whether a section's lower-cased title contains one of the keywords. */
  predicate Titled(section: Section, keywords: seq<string>) { ContainsAny(Lower(section.title), keywords) }

  /** The first section, from `i` on, whose title has a keyword. */
  function FirstTitled(sections: seq<Section>, keywords: seq<string>, i: nat): (r: Option<nat>)
    ensures r.Some? ==> i <= r.value < |sections| && Titled(sections[r.value], keywords)
    ensures r.Some? ==> forall j :: i <= j < r.value ==> !Titled(sections[j], keywords)
    ensures r.None? ==> forall j :: i <= j < |sections| ==> !Titled(sections[j], keywords)
    decreases |sections| - i
  {
    if i >= |sections| then None
    else if Titled(sections[i], keywords) then Some(i)
    else FirstTitled(sections, keywords, i + 1)
  }

  /** The keyword pass, then the fallback text, each cut at 500 characters. */
  function SummaryOf(sections: seq<Section>, keywords: seq<string>, fallback: string): string {
    match FirstTitled(sections, keywords, 0)
    case Some(i) => Take(sections[i].content, 500)
    case None => if fallback != [] then Take(fallback, 500) else ""
  }

  /** `_extract_methodology_summary`: falls back to the abstract. */
  function MethodologySummary(content: ExtractedContent): string {
    SummaryOf(content.sections, MethodKeywords, content.abstractText)
  }

  /** `_extract_results_summary`: falls back to the full text. */
  function ResultsSummary(content: ExtractedContent): string {
    SummaryOf(content.sections, ResultKeywords, content.fullText)
  }

  /** `_extract_conclusions`: falls back to the abstract. */
  function Conclusions(content: ExtractedContent): string {
    SummaryOf(content.sections, ConclusionKeywords, content.abstractText)
  }

  /** A summary is at most 500 characters and opens either the first section
      whose title has a keyword (no earlier title has one) or, when no title
      has one, the fallback text. */
  lemma {:induction false} SummaryChoice(sections: seq<Section>, keywords: seq<string>, fallback: string)
    ensures var r := SummaryOf(sections, keywords, fallback);
      && |r| <= 500
      && ((exists i :: 0 <= i < |sections| && Titled(sections[i], keywords)
                      && (forall j :: 0 <= j < i ==> !Titled(sections[j], keywords))
                      && |r| <= |sections[i].content| && r == sections[i].content[..|r|])
          || ((forall j :: 0 <= j < |sections| ==> !Titled(sections[j], keywords))
              && |r| <= |fallback| && r == fallback[..|r|]))
  {
    var r := SummaryOf(sections, keywords, fallback);
    match FirstTitled(sections, keywords, 0)
    case Some(i) =>
      assert Titled(sections[i], keywords) && r == Take(sections[i].content, 500);
    case None =>
  }

  /** The three summaries: the results summary falls back to the full text,
      the other two to the abstract; "conclusion" is the one keyword for the
      conclusions. */
  lemma {:induction false} SummaryFallbacks(content: ExtractedContent)
    ensures (forall j :: 0 <= j < |content.sections| ==> !Titled(content.sections[j], MethodKeywords))
            ==> MethodologySummary(content) == Take(content.abstractText, 500)
    ensures (forall j :: 0 <= j < |content.sections| ==> !Titled(content.sections[j], ResultKeywords))
            ==> ResultsSummary(content) == Take(content.fullText, 500)
    ensures (forall j :: 0 <= j < |content.sections| ==> !Contains(Lower(content.sections[j].title), "conclusion"))
            ==> Conclusions(content) == Take(content.abstractText, 500)
  {
    var sections := content.sections;
    if forall j :: 0 <= j < |sections| ==> !Contains(Lower(sections[j].title), "conclusion") {
      forall j | 0 <= j < |sections| ensures !Titled(sections[j], ConclusionKeywords) {
        assert !Contains(Lower(sections[j].title), ConclusionKeywords[0]);
      }
      NoTitleFound(sections, ConclusionKeywords, 0);
    }
    if forall j :: 0 <= j < |sections| ==> !Titled(sections[j], MethodKeywords) {
      NoTitleFound(sections, MethodKeywords, 0);
    }
    if forall j :: 0 <= j < |sections| ==> !Titled(sections[j], ResultKeywords) {
      NoTitleFound(sections, ResultKeywords, 0);
    }
  }

  lemma {:induction false} NoTitleFound(sections: seq<Section>, keywords: seq<string>, i: nat)
    requires forall j :: i <= j < |sections| ==> !Titled(sections[j], keywords)
    ensures FirstTitled(sections, keywords, i) == None
    decreases |sections| - i
  {
    if i < |sections| {
      NoTitleFound(sections, keywords, i + 1);
    }
  }

  /** The `PaperSummary` of a report. */
  function Summary(content: ExtractedContent): PaperSummary {
    PaperSummary(
      "Analysis of '" + content.title + "'",
      if content.abstractText != [] then Take(content.abstractText, 500) else "",
      MethodologySummary(content),
      ResultsSummary(content),
      Conclusions(content))
  }

  // ------------------------------------------------------------- key points

  function AbstractPoints(content: ExtractedContent): seq<KeyPoint> {
    if content.abstractText == [] then []
    else [KeyPoint("Paper presents: " + content.title, Take(content.abstractText, 200), "Abstract", "high")]
  }

  function StrengthPoint(strength: string): KeyPoint {
    KeyPoint(strength, "Identified by peer review analysis", "Review", "high")
  }

  /** The strengths a review contributes: its first three. */
  function Strengths(review: Option<PeerReview>): (r: seq<string>)
    ensures |r| <= 3
  {
    if review.None? then [] else Take(review.value.strengths, 3)
  }

  function StrengthPoints(strengths: seq<string>): (r: seq<KeyPoint>)
    ensures |r| == |strengths| && forall i :: 0 <= i < |r| ==> r[i] == StrengthPoint(strengths[i])
  {
    seq(|strengths|, i requires 0 <= i < |strengths| => StrengthPoint(strengths[i]))
  }

  function EquationPoints(content: ExtractedContent): seq<KeyPoint> {
    var display := DisplayEquations(content.equations);
    if display == [] then []
    else [KeyPoint("Paper includes " + Decimal(|display|) + " key equations/formulae",
                   "First equation: " + Take(display[0].latex, 100), display[0].section, "medium")]
  }

  /** The key points `_extract_key_points` assembles, in order. */
  function KeyPoints(content: ExtractedContent, review: Option<PeerReview>): seq<KeyPoint> {
    AbstractPoints(content) + StrengthPoints(Strengths(review)) + EquationPoints(content)
  }

  /** `_extract_key_points`. */
  method ExtractKeyPoints(content: ExtractedContent, review: Option<PeerReview>) returns (points: seq<KeyPoint>)
    ensures points == KeyPoints(content, review)
  {
    points := [];
    if content.abstractText != [] {
      points := points + [KeyPoint("Paper presents: " + content.title, Take(content.abstractText, 200), "Abstract", "high")];
    }
    if review.Some? {
      points := AppendStrengths(points, Take(review.value.strengths, 3));
    }
    var display := DisplayEquations(content.equations);
    if display != [] {
      points := points + [KeyPoint("Paper includes " + Decimal(|display|) + " key equations/formulae",
                                   "First equation: " + Take(display[0].latex, 100), display[0].section, "medium")];
    }
  }

  /** The loop over the review's first strengths. */
  method AppendStrengths(head: seq<KeyPoint>, strengths: seq<string>) returns (points: seq<KeyPoint>)
    ensures points == head + StrengthPoints(strengths)
  {
    points := head;
    for i := 0 to |strengths|
      invariant points == head + StrengthPoints(strengths[..i])
    {
      assert StrengthPoints(strengths[..i + 1]) == StrengthPoints(strengths[..i]) + [StrengthPoint(strengths[i])];
      points := points + [KeyPoint(strengths[i], "Identified by peer review analysis", "Review", "high")];
    }
    assert strengths[..|strengths|] == strengths;
  }

  /** At most five key points: one for the abstract when there is one, up
      to three review strengths, and one more exactly when there are display
      equations. */
  lemma {:induction false} KeyPointsCount(content: ExtractedContent, review: Option<PeerReview>)
    ensures var r, a := KeyPoints(content, review), |AbstractPoints(content)|;
      var s, display := Strengths(review), DisplayEquations(content.equations);
      && |r| <= 5
      && |r| == a + |s| + (if display == [] then 0 else 1)
      && (a == 1 <==> content.abstractText != [])
      && (review.Some? ==> s == Take(review.value.strengths, 3))
  {
    var a, s, e := AbstractPoints(content), StrengthPoints(Strengths(review)), EquationPoints(content);
    assert KeyPoints(content, review) == a + s + e;
  }

  /** The points in order: the abstract's first (high), then the review
      strengths in order (high), then, last, the equation point quoting the
      first display equation. */
  lemma {:induction false} KeyPointsOrder(content: ExtractedContent, review: Option<PeerReview>)
    ensures var r, a := KeyPoints(content, review), |AbstractPoints(content)|;
      var s, display := Strengths(review), DisplayEquations(content.equations);
      && a + |s| <= |r|
      && (content.abstractText != [] ==> r[0].importance == "high" && r[0].evidence == Take(content.abstractText, 200))
      && (forall i :: 0 <= i < |s| ==> r[a + i].point == s[i] && r[a + i].importance == "high")
      && (display != [] ==> r[|r| - 1].evidence == "First equation: " + Take(display[0].latex, 100))
  {
    var strengths := Strengths(review);
    var a, s, e := AbstractPoints(content), StrengthPoints(strengths), EquationPoints(content);
    var r := KeyPoints(content, review);
    assert r == a + s + e;
    if a != [] {
      assert r[0] == a[0];
    }
    forall i | 0 <= i < |s| ensures r[|a| + i].point == strengths[i] && r[|a| + i].importance == "high" {
      assert r[|a| + i] == s[i] == StrengthPoint(strengths[i]);
    }
    if e != [] {
      assert r[|r| - 1] == e[0];
    }
  }

  /** Only the equation point, last, is of medium importance. */
  lemma {:induction false} KeyPointsImportance(content: ExtractedContent, review: Option<PeerReview>)
    ensures var r, display := KeyPoints(content, review), DisplayEquations(content.equations);
      forall i :: 0 <= i < |r| ==> (r[i].importance == "medium" <==> display != [] && i == |r| - 1)
  {
    var a, s, e := AbstractPoints(content), StrengthPoints(Strengths(review)), EquationPoints(content);
    var r := KeyPoints(content, review);
    assert r == a + s + e;
    assert |"high"| != |"medium"|;
    forall i | 0 <= i < |r| ensures r[i].importance == "medium" <==> e != [] && i == |r| - 1 {
      if i < |a| {
        assert r[i] == a[i];
      } else if i < |a| + |s| {
        assert r[i] == s[i - |a|];
      } else {
        assert r[i] == e[i - |a| - |s|];
      }
    }
  }

  // ------------------------------------------------------------- tasks

  /** A task of the fan-out: the diagram generator or the reviewer. */
  datatype Task = DiagramTask(types: Option<seq<string>>) | ReviewTask

  /** The tasks launched, in order: diagrams, then the review. */
  function Tasks(options: AnalysisOptions): (r: seq<Task>)
    ensures DiagramTask(options.diagramTypes) in r <==> options.generateDiagrams
    ensures ReviewTask in r <==> options.generateReview
    ensures |r| == (if options.generateDiagrams then 1 else 0) + (if options.generateReview then 1 else 0)
    ensures options.generateDiagrams ==> r[0] == DiagramTask(options.diagramTypes)
  {
    (if options.generateDiagrams then [DiagramTask(options.diagramTypes)] else [])
    + (if options.generateReview then [ReviewTask] else [])
  }

  /** A gathered result, by the shape the orchestrator tests: an exception,
      a list, or any other value. */
  datatype Gathered = Raised(error: Error) | ListValue(diagrams: seq<GeneratedDiagram>) | OtherValue(review: PeerReview)

  /** The diagrams and the review after the classification loop. */
  datatype Classification = Classification(diagrams: seq<GeneratedDiagram>, review: Option<PeerReview>)

  /** One gathered result taken into account: a list or a value replaces the
      earlier one; an exception is dropped. */
  function Step(c: Classification, g: Gathered): Classification {
    match g
    case Raised(_) => c
    case ListValue(ds) => c.(diagrams := ds)
    case OtherValue(rv) => c.(review := Some(rv))
  }

  /** The classification of gathered results, from `[]` and `None`. */
  function Classified(results: seq<Gathered>): Classification {
    if results == [] then Classification([], None)
    else Step(Classified(results[..|results| - 1]), results[|results| - 1])
  }

  lemma {:induction false} ClassifiedShort(x: Gathered, y: Gathered)
    ensures Classified([x]) == Step(Classification([], None), x)
    ensures Classified([x, y]) == Step(Step(Classification([], None), x), y)
  {
    assert [x][..0] == [];
    assert [x, y][..1] == [x];
  }

  /** The loop over the gathered results. */
  method Classify(results: seq<Gathered>) returns (diagrams: seq<GeneratedDiagram>, review: Option<PeerReview>)
    ensures Classification(diagrams, review) == Classified(results)
  {
    diagrams, review := [], None;
    for i := 0 to |results|
      invariant Classification(diagrams, review) == Classified(results[..i])
    {
      assert results[..i + 1][..i] == results[..i];
      match results[i]
      case Raised(_) =>
      case ListValue(ds) =>
        diagrams := ds;
      case OtherValue(rv) =>
        review := Some(rv);
    }
    assert results[..|results|] == results;
  }

  /** The diagrams are those of the last list, or `[]` when there is none;
      the review is the last other value, or `None`. */
  lemma {:induction false} ClassifiedLast(results: seq<Gathered>)
    ensures var c := Classified(results);
      && ((c.diagrams == [] && forall k :: 0 <= k < |results| ==> !results[k].ListValue?)
          || exists k :: 0 <= k < |results| && results[k] == ListValue(c.diagrams)
                         && forall j :: k < j < |results| ==> !results[j].ListValue?)
      && (c.review.None? <==> forall k :: 0 <= k < |results| ==> !results[k].OtherValue?)
      && (c.review.Some? ==> exists k :: 0 <= k < |results| && results[k] == OtherValue(c.review.value)
                                         && forall j :: k < j < |results| ==> !results[j].OtherValue?)
  {
    LastDiagrams(results);
    NoReview(results);
    LastReview(results);
  }

  lemma {:induction false} LastDiagrams(results: seq<Gathered>)
    ensures var c := Classified(results);
      (c.diagrams == [] && forall k :: 0 <= k < |results| ==> !results[k].ListValue?)
      || exists k :: 0 <= k < |results| && results[k] == ListValue(c.diagrams)
                     && forall j :: k < j < |results| ==> !results[j].ListValue?
    decreases |results|
  {
    if results != [] {
      var n := |results| - 1;
      var init := results[..n];
      LastDiagrams(init);
      var c := Classified(init);
      assert Classified(results) == Step(c, results[n]);
      if results[n].ListValue? {
        assert results[n] == ListValue(Classified(results).diagrams);
      } else {
        assert Classified(results).diagrams == c.diagrams;
        assert forall k :: 0 <= k < n ==> init[k] == results[k];
        if !(c.diagrams == [] && forall k :: 0 <= k < n ==> !init[k].ListValue?) {
          var k :| 0 <= k < n && init[k] == ListValue(c.diagrams) && forall j :: k < j < n ==> !init[j].ListValue?;
          assert results[k] == ListValue(c.diagrams);
        }
      }
    }
  }

  lemma {:induction false} NoReview(results: seq<Gathered>)
    ensures Classified(results).review.None? <==> forall k :: 0 <= k < |results| ==> !results[k].OtherValue?
    decreases |results|
  {
    if results != [] {
      var n := |results| - 1;
      var init := results[..n];
      NoReview(init);
      assert Classified(results) == Step(Classified(init), results[n]);
      assert forall k :: 0 <= k < n ==> init[k] == results[k];
    }
  }

  lemma {:induction false} LastReview(results: seq<Gathered>)
    ensures var c := Classified(results);
      c.review.Some? ==> exists k :: 0 <= k < |results| && results[k] == OtherValue(c.review.value)
                                     && forall j :: k < j < |results| ==> !results[j].OtherValue?
    decreases |results|
  {
    if results != [] {
      var n := |results| - 1;
      var init := results[..n];
      LastReview(init);
      var c := Classified(init);
      assert Classified(results) == Step(c, results[n]);
      if results[n].OtherValue? {
        assert results[n] == OtherValue(Classified(results).review.value);
      } else if c.review.Some? {
        assert Classified(results).review == c.review;
        var k :| 0 <= k < n && init[k] == OtherValue(c.review.value) && forall j :: k < j < n ==> !init[j].OtherValue?;
        assert results[k] == OtherValue(c.review.value);
        assert forall j :: k < j < |results| ==> !results[j].OtherValue? by {
          assert forall j :: k < j < n ==> init[j] == results[j];
        }
      }
    }
  }

  /** An exception anywhere among the results changes nothing. */
  lemma {:induction false} FailuresDropped(a: seq<Gathered>, e: Error, b: seq<Gathered>)
    ensures Classified(a + [Raised(e)] + b) == Classified(a + b)
    decreases |b|
  {
    if b == [] {
      var s := a + [Raised(e)] + b;
      assert s == a + [Raised(e)] && s[..|s| - 1] == a && s[|s| - 1] == Raised(e);
      assert a + b == a;
    } else {
      var b' := b[..|b| - 1];
      FailuresDropped(a, e, b');
      assert (a + [Raised(e)] + b)[..|a + [Raised(e)] + b| - 1] == a + [Raised(e)] + b';
      assert (a + b)[..|a + b| - 1] == a + b';
    }
  }

  /** The services' answers: whether the source is a file on disk, the
      download attempts and the DOI lookup of the input handler, the OCR run
      per PDF path, the renderings and drawing errors of the diagram
      generator, and, for the reviewer, the ImportError of its graph
      libraries (if any), the language model's replies, the search key and
      results, and `float()`; then the elapsed time and the clock. */
  datatype Services = Services(
    onDisk: bool,
    download: nat -> InputHandler.Attempt,
    doiAnswer: InputHandler.DoiAnswer,
    ocr: string -> OcrDocument.OcrRun,
    rendering: DiagramGenerator.Services,
    importError: Option<string>,
    llm: Reviewer.Replies,
    searchKey: Option<string>,
    searches: seq<Option<seq<Reviewer.SearchHit>>>,
    parseFloat: string -> Option<real>,
    elapsed: real,
    clock: string)

  /** Settings the orchestrator passes on from its configuration. */
  datatype Settings = Settings(tempDir: string, outputDir: string, ocrModel: string, diagramProvider: string,
                               outputFormat: string, reviewModel: string)

  /** The diagram generator's settings: `str(Path(output_dir) / "diagrams")`
      and the configured format. */
  function DiagramSettings(settings: Settings): DiagramGenerator.Settings {
    DiagramGenerator.Settings(Paths.Render(Paths.Slash(Paths.ParsePath(settings.outputDir), Paths.ParsePath("diagrams"))),
                              settings.outputFormat)
  }

  /** What `reviewer.review` gives: the ImportError of the graph libraries
      (the workflow is then never built, so every review raises it), or the
      outcome of the workflow. */
  function ReviewResult(services: Services): Result<PeerReview> {
    if services.importError.Some? then Err(ReviewError(Reviewer.MissingPackages(services.importError.value)))
    else Reviewer.ReviewOutcome(services.llm, services.parseFloat, services.searchKey, services.searches)
  }

  /** The diagram task's gathered result: `generate` catches every error of
      a type and always returns its list of records. */
  function DiagramsGathered(settings: Settings, content: ExtractedContent, types: Option<seq<string>>,
                            services: Services): Gathered
  {
    ListValue(DiagramGenerator.Kept(DiagramGenerator.Outcomes(DiagramSettings(settings), content,
                                                              DiagramGenerator.Requested(types), services.rendering)))
  }

  /** The review task's gathered result: the error it raised or the peer
      review. */
  function ReviewGathered(services: Services): Gathered {
    match ReviewResult(services)
    case Ok(rv) => OtherValue(rv)
    case Err(e) => Raised(e)
  }

  /** A task run to its gathered result. */
  function Run(settings: Settings, content: ExtractedContent, task: Task, services: Services): Gathered {
    match task
    case DiagramTask(types) => DiagramsGathered(settings, content, types, services)
    case ReviewTask => ReviewGathered(services)
  }

  function Gather(settings: Settings, content: ExtractedContent, tasks: seq<Task>, services: Services): (r: seq<Gathered>)
    ensures |r| == |tasks| && forall i :: 0 <= i < |r| ==> r[i] == Run(settings, content, tasks[i], services)
  {
    seq(|tasks|, i requires 0 <= i < |tasks| => Run(settings, content, tasks[i], services))
  }

  /** Classifying a list of diagrams, a review result, both or neither. */
  lemma {:induction false} ClassifiedPair(d: Gathered, v: Gathered, withDiagrams: bool, withReview: bool)
    requires d.ListValue? && !v.ListValue?
    ensures var c := Classified((if withDiagrams then [d] else []) + (if withReview then [v] else []));
      && c.diagrams == (if withDiagrams then d.diagrams else [])
      && c.review == (if withReview && v.OtherValue? then Some(v.review) else None)
  {
    ClassifiedShort(d, v);
    ClassifiedShort(v, v);
    var g := (if withDiagrams then [d] else []) + (if withReview then [v] else []);
    if withDiagrams && withReview {
      assert g == [d, v];
    } else if withDiagrams {
      assert g == [d];
    } else if withReview {
      assert g == [v];
    } else {
      assert g == [];
    }
  }

  /** Each outcome lands in its place: the diagrams are the records the
      generator kept, in request order, whenever diagrams were asked for,
      else `[]`; the review is the reviewer's when a review was asked for
      and it did not raise, else `None`. */
  lemma {:induction false} OutcomesLand(settings: Settings, content: ExtractedContent, options: AnalysisOptions,
                                        services: Services)
    ensures var c := Classified(Gather(settings, content, Tasks(options), services));
      var made := DiagramGenerator.Outcomes(DiagramSettings(settings), content,
                                            DiagramGenerator.Requested(options.diagramTypes), services.rendering);
      && c.diagrams == (if options.generateDiagrams then DiagramGenerator.Kept(made) else [])
      && c.review == (if options.generateReview && ReviewResult(services).Ok? then Some(ReviewResult(services).value) else None)
  {
    var d, v := DiagramsGathered(settings, content, options.diagramTypes, services), ReviewGathered(services);
    var results := (if options.generateDiagrams then [d] else []) + (if options.generateReview then [v] else []);
    GatherTasks(settings, content, options, services, results);
    ClassifiedPair(d, v, options.generateDiagrams, options.generateReview);
  }

  // ------------------------------------------------------------- pipeline

  /** The explicit source type, or the detected one. */
  function Detected(source: string, sourceType: Option<SourceType>, onDisk: bool): Result<SourceType> {
    if sourceType.Some? then Ok(sourceType.value) else InputHandler.DetectSourceType(source, onDisk)
  }

  /** The report once the content is extracted. */
  function Assembled(settings: Settings, input: PaperInput, content: ExtractedContent, options: AnalysisOptions,
                     services: Services): AnalysisReport
  {
    var c := Classified(Gather(settings, content, Tasks(options), services));
    AnalysisReport(input, content, c.review, c.diagrams, Some(Summary(content)), KeyPoints(content, c.review),
                   ReportMetadata(settings.ocrModel, settings.diagramProvider, settings.reviewModel, services.elapsed, services.clock))
  }

  /** The first three stages of `analyse`: the input with its explicit or
      detected type, and the content the OCR engine extracts from the PDF
      the input resolves to; a failure in one of them is the result. */
  function Extracted(settings: Settings, source: string, sourceType: Option<SourceType>,
                     services: Services): Result<(PaperInput, ExtractedContent)>
  {
    match Detected(source, sourceType, services.onDisk)
    case Err(e) => Err(e)
    case Ok(t) =>
      var input := PaperInput(t, source);
      match InputHandler.Resolved(settings.tempDir, input, services.onDisk, services.download, services.doiAnswer)
      case Err(e) => Err(e)
      case Ok(path) =>
        match OcrDocument.Extraction(services.ocr(path), path, settings.ocrModel)
        case Err(e) => Err(e)
        case Ok(content) => Ok((input, content))
  }

  /** `analyse`: the first three stages, then the report. */
  function Pipeline(settings: Settings, source: string, sourceType: Option<SourceType>, options: AnalysisOptions,
                    services: Services): Result<AnalysisReport>
  {
    match Extracted(settings, source, sourceType, services)
    case Err(e) => Err(e)
    case Ok((input, content)) => Ok(Assembled(settings, input, content, options, services))
  }

  /** `ResearchAnalyser.analyse`, up to saving the outputs. */
  method Analyse(settings: Settings, source: string, sourceType: Option<SourceType>, options: AnalysisOptions,
                 services: Services) returns (r: Result<AnalysisReport>)
    ensures r == Pipeline(settings, source, sourceType, options, services)
  {
    var extracted := Extract(settings, source, sourceType, services);
    if extracted.Err? {
      return Err(extracted.error);
    }
    var (input, content) := extracted.value;
    var report := Assemble(settings, input, content, options, services);
    r := Ok(report);
  }

  /** The first three stages: detection, resolution and extraction. */
  method Extract(settings: Settings, source: string, sourceType: Option<SourceType>, services: Services)
    returns (r: Result<(PaperInput, ExtractedContent)>)
    ensures r == Extracted(settings, source, sourceType, services)
  {
    var detected := Detected(source, sourceType, services.onDisk);
    if detected.Err? {
      return Err(detected.error);
    }
    var input := PaperInput(detected.value, source);
    var path := InputHandler.Resolve(settings.tempDir, input, services.onDisk, services.download, services.doiAnswer);
    if path.Err? {
      return Err(path.error);
    }
    var content := OcrDocument.ExtractPdf(services.ocr(path.value), path.value, settings.ocrModel);
    if content.Err? {
      return Err(content.error);
    }
    r := Ok((input, content.value));
  }

  /** The fan-out, the summary and the key points, once the content is
      extracted: the tasks run in request order and their results are
      classified. */
  method Assemble(settings: Settings, input: PaperInput, content: ExtractedContent, options: AnalysisOptions,
                  services: Services) returns (report: AnalysisReport)
    ensures report == Assembled(settings, input, content, options, services)
  {
    var results := [];
    if options.generateDiagrams {
      var g := RunDiagrams(settings, content, options.diagramTypes, services);
      results := results + [g];
    }
    if options.generateReview {
      var g := RunReview(content, services);
      results := results + [g];
    }
    GatherTasks(settings, content, options, services, results);
    var diagrams, review := Classify(results);
    var keyPoints := ExtractKeyPoints(content, review);
    var metadata := ReportMetadata(settings.ocrModel, settings.diagramProvider, settings.reviewModel, services.elapsed, services.clock);
    report := AnalysisReport(input, content, review, diagrams, Some(Summary(content)), keyPoints, metadata);
  }

  /** The diagram task: the records `generate` returns. */
  method RunDiagrams(settings: Settings, content: ExtractedContent, types: Option<seq<string>>, services: Services)
    returns (g: Gathered)
    ensures g == DiagramsGathered(settings, content, types, services)
  {
    var made, _ := DiagramGenerator.Generate(DiagramSettings(settings), content, types, services.rendering);
    g := ListValue(made);
  }

  /** The review task: a reviewer whose workflow is not built yet reviews
      the paper, with no target venue. */
  method RunReview(content: ExtractedContent, services: Services) returns (g: Gathered)
    ensures g == ReviewGathered(services)
  {
    var reviewer := new Reviewer.PaperReviewer();
    var outcome := reviewer.Review(content, None, services.importError, services.llm, services.searchKey,
                                   services.searches, services.parseFloat);
    g := if outcome.Ok? then OtherValue(outcome.value) else Raised(outcome.error);
  }

  /** The results of the tasks asked for, in request order, are what the
      gathering gives. */
  lemma {:induction false} GatherTasks(settings: Settings, content: ExtractedContent, options: AnalysisOptions,
                                       services: Services, results: seq<Gathered>)
    requires results == (if options.generateDiagrams then [DiagramsGathered(settings, content, options.diagramTypes, services)] else [])
                        + (if options.generateReview then [ReviewGathered(services)] else [])
    ensures results == Gather(settings, content, Tasks(options), services)
  {
    var g := Gather(settings, content, Tasks(options), services);
    assert |g| == |results|;
    forall i | 0 <= i < |g| ensures g[i] == results[i] {
      if options.generateDiagrams && i == 0 {
        assert Tasks(options)[0] == DiagramTask(options.diagramTypes);
      }
    }
  }

  /** The first three stages fail exactly when detection, resolution or
      the OCR run fails; otherwise the input carries the source and its
      explicit or detected type, and the content is the record built from
      what the OCR run left for the resolved path, with that path as its
      source file. */
  lemma {:induction false} ExtractedStages(settings: Settings, source: string, sourceType: Option<SourceType>,
                                           services: Services)
    ensures var x, d := Extracted(settings, source, sourceType, services), Detected(source, sourceType, services.onDisk);
      x.Err? <==>
        || d.Err?
        || InputHandler.Resolved(settings.tempDir, PaperInput(d.value, source), services.onDisk, services.download, services.doiAnswer).Err?
        || !services.ocr(InputHandler.Resolved(settings.tempDir, PaperInput(d.value, source), services.onDisk, services.download, services.doiAnswer).value).Parsed?
    ensures var x, d := Extracted(settings, source, sourceType, services), Detected(source, sourceType, services.onDisk);
      x.Ok? ==>
        && x.value.0.sourceValue == source
        && (sourceType.Some? ==> x.value.0.sourceType == sourceType.value)
        && (sourceType.None? ==> InputHandler.DetectSourceType(source, services.onDisk) == Ok(x.value.0.sourceType))
        && d.Ok?
        && var path := InputHandler.Resolved(settings.tempDir, x.value.0, services.onDisk, services.download, services.doiAnswer);
           && path.Ok? && services.ocr(path.value).Parsed?
           && x.value.1 == OcrDocument.Document(services.ocr(path.value).output, path.value, settings.ocrModel)
  {
  }

  /** `analyse` fails exactly when one of the first three stages fails,
      and a report holds their input and content. */
  lemma {:induction false} PipelineStages(settings: Settings, source: string, sourceType: Option<SourceType>,
                                          options: AnalysisOptions, services: Services)
    ensures var r, x := Pipeline(settings, source, sourceType, options, services), Extracted(settings, source, sourceType, services);
      && (r.Err? <==> x.Err?)
      && (r.Ok? ==> r.value.paperInput == x.value.0 && r.value.extractedContent == x.value.1)
  {
  }

  /** A report says "Analysis of '<title>'", holds the generator's records
      and the reviewer's review in their places and at most five key
      points. */
  lemma {:induction false} PipelineReport(settings: Settings, source: string, sourceType: Option<SourceType>,
                                          options: AnalysisOptions, services: Services)
    ensures var r := Pipeline(settings, source, sourceType, options, services);
      r.Ok? ==>
        && r.value.summary.Some? && r.value.summary.value.oneSentence == "Analysis of '" + r.value.extractedContent.title + "'"
        && r.value.diagrams == (if options.generateDiagrams
                                then DiagramGenerator.Kept(DiagramGenerator.Outcomes(DiagramSettings(settings), r.value.extractedContent,
                                       DiagramGenerator.Requested(options.diagramTypes), services.rendering))
                                else [])
        && r.value.review == (if options.generateReview && ReviewResult(services).Ok? then Some(ReviewResult(services).value) else None)
        && |r.value.keyPoints| <= 5
  {
    var r, x := Pipeline(settings, source, sourceType, options, services), Extracted(settings, source, sourceType, services);
    if x.Ok? {
      var content := x.value.1;
      OutcomesLand(settings, content, options, services);
      var c := Classified(Gather(settings, content, Tasks(options), services));
      KeyPointsCount(content, c.review);
    }
  }
}
