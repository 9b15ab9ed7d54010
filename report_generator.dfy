/** `report_generator.py`: report-relative asset paths, and what the written
    outputs select and count: the equations each document lists, the core
    contributions, the statistics line, the machine-readable equation lists,
    the extracted-data records and the metadata record. The markdown and
    HTML text around them, and the file writes, are not part of this model. */
module ReportGenerator {
  import opened Text
  import opened Models
  import Reviewer
  import opened Paths

  // ---------------------------------------------------------------- paths

  /** `_asset_path(raw_path, output_dir)`: an absolute path under the output
      directory becomes the remainder; another absolute path is unchanged;
      a relative path whose first part is the output directory's name loses
      that part; anything else is unchanged. */
  function AssetPath(raw: string, outputDir: string): string {
    var p, out := ParsePath(raw), ParsePath(outputDir);
    if p.absolute then
      if out.absolute && |out.parts| <= |p.parts| && p.parts[..|out.parts|] == out.parts
      then Render(PurePath(false, p.parts[|out.parts|..]))
      else Render(p)
    else if p.parts != [] && p.parts[0] == Name(out) then Render(PurePath(false, p.parts[1..]))
    else Render(p)
  }

  /** The four cases of `_asset_path`, each stated on the path the result
      names: the remainder under the output directory, which joined to the
      directory gives the original path back; the path itself; the path less
      its first part; the path itself. */
  lemma {:induction false} AssetPathCases(raw: string, outputDir: string)
    ensures var p, out, r := ParsePath(raw), ParsePath(outputDir), ParsePath(AssetPath(raw, outputDir));
      var under := out.absolute && |out.parts| <= |p.parts| && p.parts[..|out.parts|] == out.parts;
      && (p.absolute && under ==> !r.absolute && Slash(out, r) == p)
      && (p.absolute && !under ==> r == p)
      && (!p.absolute && p.parts != [] && p.parts[0] == Name(out) ==> r == PurePath(false, p.parts[1..]))
      && (!p.absolute && !(p.parts != [] && p.parts[0] == Name(out)) ==> r == p)
  {
    var p, out := ParsePath(raw), ParsePath(outputDir);
    if p.absolute && out.absolute && |out.parts| <= |p.parts| && p.parts[..|out.parts|] == out.parts {
      AssetPathUnder(raw, outputDir);
    } else if !p.absolute && p.parts != [] && p.parts[0] == Name(out) {
      AssetPathStripped(raw, outputDir);
    } else {
      AssetPathKept(raw, outputDir);
    }
  }

  lemma {:induction false} AssetPathUnder(raw: string, outputDir: string)
    requires var p, out := ParsePath(raw), ParsePath(outputDir);
      p.absolute && out.absolute && |out.parts| <= |p.parts| && p.parts[..|out.parts|] == out.parts
    ensures var r := ParsePath(AssetPath(raw, outputDir));
      !r.absolute && Slash(ParsePath(outputDir), r) == ParsePath(raw)
  {
    var p, out := ParsePath(raw), ParsePath(outputDir);
    var rest := PurePath(false, p.parts[|out.parts|..]);
    assert Normal(rest) by {
      ParseNormal(raw);
      forall k | 0 <= k < |rest.parts| ensures Component(rest.parts[k]) {
        assert rest.parts[k] == p.parts[|out.parts| + k];
      }
    }
    ParseRender(rest);
    assert AssetPath(raw, outputDir) == Render(rest);
    assert p.parts == p.parts[..|out.parts|] + rest.parts;
    assert Slash(out, rest) == PurePath(true, p.parts) == p;
  }

  lemma {:induction false} AssetPathStripped(raw: string, outputDir: string)
    requires var p, out := ParsePath(raw), ParsePath(outputDir);
      !p.absolute && p.parts != [] && p.parts[0] == Name(out)
    ensures ParsePath(AssetPath(raw, outputDir)) == PurePath(false, ParsePath(raw).parts[1..])
  {
    var p := ParsePath(raw);
    var rest := PurePath(false, p.parts[1..]);
    assert Normal(rest) by {
      ParseNormal(raw);
      forall k | 0 <= k < |rest.parts| ensures Component(rest.parts[k]) {
        assert rest.parts[k] == p.parts[1 + k];
      }
    }
    ParseRender(rest);
    assert AssetPath(raw, outputDir) == Render(rest);
  }

  lemma {:induction false} AssetPathKept(raw: string, outputDir: string)
    requires var p, out := ParsePath(raw), ParsePath(outputDir);
      !(p.absolute && out.absolute && |out.parts| <= |p.parts| && p.parts[..|out.parts|] == out.parts)
      && !(!p.absolute && p.parts != [] && p.parts[0] == Name(out))
    ensures ParsePath(AssetPath(raw, outputDir)) == ParsePath(raw)
  {
    ParseNormal(raw);
    ParseRender(ParsePath(raw));
    assert AssetPath(raw, outputDir) == Render(ParsePath(raw));
  }

  /** `_asset_path` is not idempotent: a doubled directory name loses one
      part per application. */
  lemma {:induction false} AssetPathNotIdempotent()
    ensures AssetPath("output/output/x", "output") == "output/x"
    ensures AssetPath("output/x", "output") == "x"
  {
    ParsedLiterals();
    StripsLeadingName("output/output/x", "output", ["output", "output", "x"]);
    StripsLeadingName("output/x", "output", ["output", "x"]);
    assert ["output", "output", "x"][1..] == ["output", "x"];
    assert ["output", "x"][1..] == ["x"];
  }

  lemma {:induction false} StripsLeadingName(raw: string, outputDir: string, parts: seq<string>)
    requires ParsePath(raw) == PurePath(false, parts)
    requires parts != [] && parts[0] == Name(ParsePath(outputDir))
    ensures AssetPath(raw, outputDir) == Render(PurePath(false, parts[1..]))
  {
  }

  lemma {:induction false} ParsedLiterals()
    ensures ParsePath("output") == PurePath(false, ["output"])
    ensures ParsePath("output/x") == PurePath(false, ["output", "x"])
    ensures ParsePath("output/output/x") == PurePath(false, ["output", "output", "x"])
    ensures Render(PurePath(false, ["output", "x"])) == "output/x"
    ensures Render(PurePath(false, ["x"])) == "x"
  {
    ParsedOutput();
    ParsedOutputX();
    ParsedOutputOutputX();
    assert Join(["x"], "/") == "x";
  }

  lemma {:induction false} ParsedOutput()
    ensures ParsePath("output") == PurePath(false, ["output"])
  {
    assert Join(["output"], "/") == "output";
    ParseRender(PurePath(false, ["output"]));
  }

  lemma {:induction false} ParsedOutputX()
    ensures ParsePath("output/x") == PurePath(false, ["output", "x"])
    ensures Render(PurePath(false, ["output", "x"])) == "output/x"
  {
    assert Join(["output", "x"], "/") == "output/x";
    ParseRender(PurePath(false, ["output", "x"]));
  }

  lemma {:induction false} ParsedOutputOutputX()
    ensures ParsePath("output/output/x") == PurePath(false, ["output", "output", "x"])
  {
    assert Join(["output", "output", "x"], "/") == "output/output/x";
    ParseRender(PurePath(false, ["output", "output", "x"]));
  }

  // ------------------------------------------------------------ equations

  /** How many display equations `report.md`, `key_points.md` and the HTML
      report list. */
  const ReportEquationCap: nat := 10
  const KeyPointsEquationCap: nat := 15
  const HtmlEquationCap: nat := 20

  /** The inline equations, in document order. */
  function InlineEquations(eqs: seq<Equation>): (r: seq<Equation>)
    ensures forall k :: 0 <= k < |r| ==> r[k].isInline && r[k] in eqs
    ensures forall e :: e in eqs && e.isInline ==> e in r
  {
    if eqs == [] then []
    else if eqs[0].isInline then [eqs[0]] + InlineEquations(eqs[1..])
    else InlineEquations(eqs[1..])
  }

  /** Every equation is either listed as display or counted as inline. */
  lemma {:induction false} DisplayInlineSplit(eqs: seq<Equation>)
    ensures |DisplayEquations(eqs)| + |InlineEquations(eqs)| == |eqs|
  {
    if eqs != [] {
      DisplayInlineSplit(eqs[1..]);
    }
  }

  /** The display equations among the first `i` of `eqs`, built one
      equation at a time as the loop of `generate_spec_output` sees them. */
  ghost function DisplayPrefix(eqs: seq<Equation>, i: nat): seq<Equation>
    requires i <= |eqs|
  {
    if i == 0 then [] else DisplayPrefix(eqs, i - 1) + (if eqs[i - 1].isInline then [] else [eqs[i - 1]])
  }

  lemma {:induction false} DisplayPrefixIs(eqs: seq<Equation>, i: nat)
    requires i <= |eqs|
    ensures DisplayPrefix(eqs, i) == DisplayEquations(eqs[..i])
  {
    if i > 0 {
      DisplayPrefixIs(eqs, i - 1);
      assert eqs[..i] == eqs[..i - 1] + [eqs[i - 1]];
      DisplaySnoc(eqs[..i - 1], eqs[i - 1]);
    }
  }

  lemma DisplaySnoc(p: seq<Equation>, e: Equation)
    ensures DisplayEquations(p + [e]) == DisplayEquations(p) + (if e.isInline then [] else [e])
  {
    DisplayAppend(p, [e]);
    assert DisplayEquations([e]) == if e.isInline then [] else [e] by {
      assert [e][1..] == [];
    }
  }

  /** Selecting display equations distributes over concatenation. */
  lemma {:induction false} DisplayAppend(a: seq<Equation>, b: seq<Equation>)
    ensures DisplayEquations(a + b) == DisplayEquations(a) + DisplayEquations(b)
  {
    if a == [] {
      assert a + b == b;
    } else {
      assert (a + b)[0] == a[0] && (a + b)[1..] == a[1..] + b;
      DisplayAppend(a[1..], b);
    }
  }

  /** `display_eqs[:cap]`: the first `cap` display equations, all of them when
      there are no more than `cap`. */
  function Listed(eqs: seq<Equation>, cap: nat): (r: seq<Equation>)
    ensures |r| <= cap
    ensures |r| < cap ==> r == DisplayEquations(eqs)
    ensures forall k :: 0 <= k < |r| ==> !r[k].isInline && r[k] in eqs
  {
    Take(DisplayEquations(eqs), cap)
  }

  /** The three listings are prefixes of one another: the HTML report shows
      everything `key_points.md` shows, which shows everything `report.md`
      shows, in the same order. */
  lemma {:induction false} ListingsNested(eqs: seq<Equation>)
    ensures var rep, kp, html := Listed(eqs, ReportEquationCap), Listed(eqs, KeyPointsEquationCap), Listed(eqs, HtmlEquationCap);
      |rep| <= |kp| <= |html| && kp[..|rep|] == rep && html[..|kp|] == kp
  {
    var d := DisplayEquations(eqs);
    assert Listed(eqs, ReportEquationCap) == d[..|Listed(eqs, ReportEquationCap)|];
    assert Listed(eqs, KeyPointsEquationCap) == d[..|Listed(eqs, KeyPointsEquationCap)|];
    assert Listed(eqs, HtmlEquationCap) == d[..|Listed(eqs, HtmlEquationCap)|];
  }

  /** An equation label counts when it is set and not empty. */
  predicate Labelled(eq: Equation) { eq.eqLabel.Some? && eq.eqLabel.value != "" }

  /** The `###` heading of an equation in `report.md` (and, escaped, in the
      HTML report): its id, then the label in parentheses when it has one. */
  function ReportEquationHeading(eq: Equation): (r: string)
    ensures |eq.id| <= |r| && r[..|eq.id|] == eq.id
    ensures |r| == |eq.id| <==> !Labelled(eq)
    ensures Labelled(eq) ==> r[|eq.id|..] == " (" + eq.eqLabel.value + ")"
  {
    eq.id + if Labelled(eq) then " (" + eq.eqLabel.value + ")" else ""
  }

  /** The `###` heading of an equation in `key_points.md`: the label, or the
      id when there is none. */
  function KeyPointsEquationHeading(eq: Equation): (r: string)
    ensures ReportEquationHeading(eq) == eq.id + (if Labelled(eq) then " (" + r + ")" else "")
    ensures !Labelled(eq) ==> r == eq.id
  {
    if Labelled(eq) then eq.eqLabel.value else eq.id
  }

  // --------------------------------------------------------- key points

  /** The key points marked `high`, in order. */
  function HighPoints(kps: seq<KeyPoint>): (r: seq<KeyPoint>)
    ensures |r| <= |kps|
    ensures forall k :: 0 <= k < |r| ==> r[k] in kps && r[k].importance == "high"
    ensures forall p :: p in kps && p.importance == "high" ==> p in r
  {
    if kps == [] then []
    else if kps[0].importance == "high" then [kps[0]] + HighPoints(kps[1..])
    else HighPoints(kps[1..])
  }

  /** The core contributions of `key_points.md`: every high-importance point
      when there is one, otherwise the first five points. */
  function CoreContributions(kps: seq<KeyPoint>): (r: seq<KeyPoint>)
    ensures forall k :: 0 <= k < |r| ==> r[k] in kps
    ensures (exists p :: p in kps && p.importance == "high") ==>
      (forall k :: 0 <= k < |r| ==> r[k].importance == "high") &&
      (forall p :: p in kps && p.importance == "high" ==> p in r)
    ensures (forall p :: p in kps ==> p.importance != "high") ==>
      |r| == (if |kps| < 5 then |kps| else 5) && r == kps[..|r|]
    ensures kps != [] ==> r != []
  {
    var high := HighPoints(kps);
    assert high != [] ==> high[0] in kps && high[0].importance == "high";
    if high != [] then high else Take(kps, 5)
  }

  /** The lines of `enumerate(items, 1)` written as `"{i}. {item}"`. */
  method NumberedLines(items: seq<string>) returns (lines: seq<string>)
    ensures |lines| == |items|
    ensures forall k :: 0 <= k < |items| ==> lines[k] == Decimal(k + 1) + ". " + items[k]
  {
    lines := [];
    var i := 0;
    while i < |items|
      invariant 0 <= i <= |items| && |lines| == i
      invariant forall k :: 0 <= k < i ==> lines[k] == Decimal(k + 1) + ". " + items[k]
    {
      lines := lines + [Decimal(i + 1) + ". " + items[i]];
      i := i + 1;
    }
  }

  function Points(kps: seq<KeyPoint>): (r: seq<string>)
    ensures |r| == |kps| && forall k :: 0 <= k < |kps| ==> r[k] == kps[k].point
  {
    seq(|kps|, k requires 0 <= k < |kps| => kps[k].point)
  }

  /** The numbered list under "Core Contributions". */
  method CoreContributionLines(kps: seq<KeyPoint>) returns (lines: seq<string>)
    ensures var core := CoreContributions(kps);
      |lines| == |core| && forall k :: 0 <= k < |core| ==> lines[k] == Decimal(k + 1) + ". " + core[k].point
  {
    lines := NumberedLines(Points(CoreContributions(kps)));
  }

  // --------------------------------------------------------- statistics

  /** The "Document Statistics" block of `key_points.md`; `review` is the
      score and its decision when there is a review. */
  datatype Statistics = Statistics(
    sections: nat,
    equations: nat,
    display: nat,
    inline: int,
    tables: nat,
    figures: nat,
    references: nat,
    review: Option<(real, string)>)

  /** The inline count is printed as total less display; it is the number
      of inline equations and never negative. */
  function DocumentStatistics(report: AnalysisReport): (r: Statistics)
    ensures r.display + r.inline == r.equations == |report.extractedContent.equations|
    ensures r.display == |DisplayEquations(report.extractedContent.equations)|
    ensures r.inline == |InlineEquations(report.extractedContent.equations)| >= 0
    ensures r.review.Some? <==> report.review.Some?
    ensures r.review.Some? ==> r.review.value.1 == Reviewer.InterpretScore(r.review.value.0)
  {
    var c := report.extractedContent;
    var display := DisplayEquations(c.equations);
    DisplayInlineSplit(c.equations);
    Statistics(
      |c.sections|, |c.equations|, |display|, |c.equations| - |display|,
      |c.tables|, |c.figures|, |c.references|,
      if report.review.Some?
      then Some((report.review.value.overallScore, Reviewer.InterpretScore(report.review.value.overallScore)))
      else None)
  }

  // --------------------------------------------------------- spec output

  /** One entry of the machine-readable equation list of `spec_output.md`. */
  datatype SpecEquation = SpecEquation(id: string, latex: string, eqLabel: Option<string>, section: string, description: string)

  function SpecEntry(eq: Equation): SpecEquation {
    SpecEquation(eq.id, eq.latex, eq.eqLabel, eq.section, eq.description)
  }

  /** The loop of `generate_spec_output` over all equations, keeping the
      display ones: exactly the display equations, in order. */
  method SpecEquations(eqs: seq<Equation>) returns (r: seq<SpecEquation>)
    ensures |r| == |DisplayEquations(eqs)|
    ensures forall k :: 0 <= k < |r| ==> r[k] == SpecEntry(DisplayEquations(eqs)[k])
  {
    r := [];
    ghost var shown: seq<Equation> := [];
    var i := 0;
    while i < |eqs|
      invariant 0 <= i <= |eqs|
      invariant shown == DisplayPrefix(eqs, i)
      invariant |r| == |shown|
      invariant forall k :: 0 <= k < |r| ==> r[k] == SpecEntry(shown[k])
    {
      if !eqs[i].isInline {
        r := r + [SpecEntry(eqs[i])];
        shown := shown + [eqs[i]];
      }
      i := i + 1;
    }
    assert shown == DisplayEquations(eqs) by {
      DisplayPrefixIs(eqs, i);
      assert eqs[..i] == eqs;
    }
  }

  /** One entry of the structured key findings of `spec_output.md`. */
  datatype FindingEntry = FindingEntry(finding: string, evidence: string, section: string, importance: string)

  function Findings(kps: seq<KeyPoint>): (r: seq<FindingEntry>)
    ensures |r| == |kps|
    ensures forall k :: 0 <= k < |kps| ==>
      r[k] == FindingEntry(kps[k].point, kps[k].evidence, kps[k].section, kps[k].importance)
  {
    seq(|kps|, k requires 0 <= k < |kps| => FindingEntry(kps[k].point, kps[k].evidence, kps[k].section, kps[k].importance))
  }

  /** The structured review scores, present only with a review. */
  datatype ScoresBlock = ScoresBlock(overall: real, confidence: real, dimensions: seq<(string, real, real)>, decision: string)

  function ReviewScores(review: Option<PeerReview>): (r: Option<ScoresBlock>)
    ensures r.Some? <==> review.Some?
    ensures r.Some? ==>
      (r.value.overall == review.value.overallScore
      && r.value.decision == Reviewer.InterpretScore(review.value.overallScore)
      && |r.value.dimensions| == |review.value.dimensions|)
  {
    match review
    case None => None
    case Some(rv) =>
      var dims := rv.dimensions;
      Some(ScoresBlock(rv.overallScore, rv.confidence,
        seq(|dims|, k requires 0 <= k < |dims| => (dims[k].0, dims[k].1.score, dims[k].1.weight)),
        Reviewer.InterpretScore(rv.overallScore)))
  }

  // ----------------------------------------------------- extracted data

  /** One entry of `extracted/equations.json`. */
  datatype EquationRecord = EquationRecord(
    id: string, latex: string, kind: string, eqLabel: Option<string>,
    section: string, context: string, description: string)

  function EquationRecordOf(eq: Equation): EquationRecord {
    EquationRecord(eq.id, eq.latex, if eq.isInline then "inline" else "display",
      eq.eqLabel, eq.section, eq.context, eq.description)
  }

  /** One entry per equation, in order, typed `inline` exactly for the inline
      ones and `display` for all others. */
  function EquationsJson(eqs: seq<Equation>): (r: seq<EquationRecord>)
    ensures |r| == |eqs|
    ensures forall k :: 0 <= k < |eqs| ==>
      (r[k].id == eqs[k].id && r[k].latex == eqs[k].latex
      && r[k].context == eqs[k].context && r[k].section == eqs[k].section)
    ensures forall k :: 0 <= k < |eqs| ==>
      (r[k].kind == "inline" <==> eqs[k].isInline) && (r[k].kind == "display" <==> !eqs[k].isInline)
  {
    if eqs == [] then [] else [EquationRecordOf(eqs[0])] + EquationsJson(eqs[1..])
  }

  /** The entries typed `display`. */
  function CountDisplay(records: seq<EquationRecord>): nat {
    if records == [] then 0
    else (if records[0].kind == "display" then 1 else 0) + CountDisplay(records[1..])
  }

  /** `equations.json` types as `display` exactly as many equations as the
      spec output lists and the statistics count. */
  lemma {:induction false} DisplayRecordsCounted(eqs: seq<Equation>)
    ensures CountDisplay(EquationsJson(eqs)) == |DisplayEquations(eqs)|
  {
    if eqs != [] {
      DisplayRecordsCounted(eqs[1..]);
    }
  }

  /** One entry of `extracted/tables.json`. */
  datatype TableRecord = TableRecord(id: string, content: string, caption: Option<string>, section: Option<string>)

  function TablesJson(tables: seq<Table>): (r: seq<TableRecord>)
    ensures |r| == |tables|
    ensures forall k :: 0 <= k < |tables| ==>
      r[k] == TableRecord(tables[k].id, tables[k].content, tables[k].caption, tables[k].section)
  {
    seq(|tables|, k requires 0 <= k < |tables| =>
      TableRecord(tables[k].id, tables[k].content, tables[k].caption, tables[k].section))
  }

  /** `metadata.json`. */
  datatype Metadata = Metadata(
    title: string,
    authors: seq<string>,
    source: string,
    sourceType: SourceType,
    analysedAt: string,
    ocrModel: string,
    diagramProvider: string,
    reviewModel: string,
    numEquations: nat,
    numTables: nat,
    numFigures: nat,
    numDiagrams: nat,
    reviewScore: Option<real>)

  function MetadataRecord(report: AnalysisReport): (r: Metadata)
    ensures r.numEquations == |report.extractedContent.equations|
    ensures r.numTables == |report.extractedContent.tables|
    ensures r.numFigures == |report.extractedContent.figures|
    ensures r.numDiagrams == |report.diagrams|
    ensures r.reviewScore.Some? <==> report.review.Some?
    ensures r.reviewScore.Some? ==> r.reviewScore.value == report.review.value.overallScore
  {
    var c, m := report.extractedContent, report.metadata;
    Metadata(c.title, c.authors, report.paperInput.sourceValue, report.paperInput.sourceType,
      m.analysedAt, m.ocrModel, m.diagramProvider, m.reviewModel,
      |c.equations|, |c.tables|, |c.figures|, |report.diagrams|,
      if report.review.Some? then Some(report.review.value.overallScore) else None)
  }

  /** The saved files agree with one another: the metadata counts are the
      lengths of the JSON lists and the statistics, the display entries of
      `equations.json` are as many as the statistics' display count, and the
      review score is the one the statistics print. */
  lemma {:induction false} SavedRecordsAgree(report: AnalysisReport)
    ensures var m, st, c := MetadataRecord(report), DocumentStatistics(report), report.extractedContent;
      && m.numEquations == |EquationsJson(c.equations)| == st.equations
      && CountDisplay(EquationsJson(c.equations)) == st.display
      && m.numTables == |TablesJson(c.tables)| == st.tables
      && m.numFigures == st.figures
      && (m.reviewScore.Some? <==> st.review.Some?)
      && (m.reviewScore.Some? ==> m.reviewScore.value == st.review.value.0)
  {
    DisplayRecordsCounted(report.extractedContent.equations);
  }

  // ------------------------------------------------------- document outline

  /** The `##` sections the reports can hold. */
  datatype Heading =
    | Summary | KeyFindings | KeyEquations | Methodology | GeneratedDiagrams
    | ExtractedFigures | PeerReviewHeading | Results | Conclusions | ExtractedTables

  function HeadingText(h: Heading): string {
    match h
    case Summary => "Summary"
    case KeyFindings => "Key Findings"
    case KeyEquations => "Key Equations"
    case Methodology => "Methodology"
    case GeneratedDiagrams => "Generated Diagrams"
    case ExtractedFigures => "Extracted Figures"
    case PeerReviewHeading => "Peer Review"
    case Results => "Results"
    case Conclusions => "Conclusions"
    case ExtractedTables => "Extracted Tables"
  }

  /** The two documents whose section lists are modelled. */
  datatype Document = MarkdownReport | HtmlReport

  /** Whether `doc` writes section `h` for `report`. */
  predicate Writes(doc: Document, report: AnalysisReport, h: Heading) {
    match doc
    case MarkdownReport => InReport(report, h)
    case HtmlReport => InHtml(report, h)
  }

  /** The headings of `order` that `doc` writes, in that order. */
  function Select(doc: Document, report: AnalysisReport, order: seq<Heading>): (r: seq<Heading>)
    ensures forall h :: h in r <==> h in order && Writes(doc, report, h)
  {
    if order == [] then []
    else (if Writes(doc, report, order[0]) then [order[0]] else []) + Select(doc, report, order[1..])
  }

  const ReportOrder: seq<Heading> := [
    Summary, KeyFindings, KeyEquations, Methodology, GeneratedDiagrams,
    PeerReviewHeading, Results, Conclusions, ExtractedTables]

  /** Whether `report.md` writes a section. */
  predicate InReport(report: AnalysisReport, h: Heading) {
    match h
    case Summary | Methodology | Results | Conclusions => report.summary.Some?
    case KeyFindings => report.keyPoints != []
    case KeyEquations => report.extractedContent.equations != []
    case GeneratedDiagrams => report.diagrams != []
    case PeerReviewHeading => report.review.Some?
    case ExtractedTables => report.extractedContent.tables != []
    case ExtractedFigures => false
  }

  /** The `##` sections of `report.md`, in order. "Key Equations" appears
      whenever there are equations at all, even if none is a display one. */
  function ReportSections(report: AnalysisReport): (r: seq<Heading>)
    ensures PeerReviewHeading in r <==> report.review.Some?
    ensures KeyEquations in r <==> report.extractedContent.equations != []
    ensures ExtractedTables in r <==> report.extractedContent.tables != []
    ensures ExtractedFigures !in r
  {
    assert ReportOrder[2] == KeyEquations && ReportOrder[5] == PeerReviewHeading;
    assert ReportOrder[8] == ExtractedTables;
    Select(MarkdownReport, report, ReportOrder)
  }

  /** The `###` subsections of the peer review in `report.md`: none without
      a review; with one, the scores, strengths and weaknesses always, then
      suggestions and related work when there are any. */
  function ReviewSubsections(review: Option<PeerReview>): (r: seq<string>)
    ensures review.None? <==> r == []
    ensures review.Some? ==> |r| >= 3 && r[..3] == ["Dimensional Scores", "Strengths", "Weaknesses"]
    ensures "Suggestions" in r <==> review.Some? && review.value.suggestions != []
    ensures "Related Work" in r <==> review.Some? && review.value.relatedWorks != []
  {
    match review
    case None => []
    case Some(rv) =>
      ["Dimensional Scores", "Strengths", "Weaknesses"]
      + (if rv.suggestions != [] then ["Suggestions"] else [])
      + (if rv.relatedWorks != [] then ["Related Work"] else [])
  }

  /** The related works listed: at most ten, and none without a review. */
  function RelatedWorksListed(review: Option<PeerReview>): (r: seq<RelatedWork>)
    ensures |r| <= 10
    ensures review.None? ==> r == []
    ensures review.Some? ==>
      (|r| <= |review.value.relatedWorks| && r == review.value.relatedWorks[..|r|]
      && (|r| < 10 ==> r == review.value.relatedWorks))
  {
    if review.Some? then Take(review.value.relatedWorks, 10) else []
  }

  /** The tables shown in `report.md`: the first five. */
  function ReportTables(tables: seq<Table>): (r: seq<Table>)
    ensures |r| <= 5 && |r| <= |tables| && r == tables[..|r|]
    ensures |r| < 5 ==> r == tables
  {
    Take(tables, 5)
  }

  predicate HasImage(f: Figure) { f.imagePath.Some? && f.imagePath.value != "" }

  /** The figures with an image path, in order. */
  function WithImage(figs: seq<Figure>): (r: seq<Figure>)
    ensures |r| <= |figs|
    ensures forall k :: 0 <= k < |r| ==> HasImage(r[k]) && r[k] in figs
    ensures forall f :: f in figs && HasImage(f) ==> f in r
  {
    if figs == [] then []
    else if HasImage(figs[0]) then [figs[0]] + WithImage(figs[1..])
    else WithImage(figs[1..])
  }

  /** No figure survives the image filter exactly when none has an image. */
  lemma WithImageEmpty(figs: seq<Figure>)
    ensures WithImage(figs) != [] <==> exists f :: f in figs && HasImage(f)
  {
    var w := WithImage(figs);
    if w != [] {
      assert w[0] in figs && HasImage(w[0]);
    }
  }

  /** The figures embedded in the HTML report: at most ten, each with an
      image path; all such figures when there are fewer than ten. */
  function HtmlFigures(figs: seq<Figure>): (r: seq<Figure>)
    ensures |r| <= 10
    ensures forall k :: 0 <= k < |r| ==> HasImage(r[k]) && r[k] in figs
    ensures |r| < 10 ==> forall f :: f in figs && HasImage(f) ==> f in r
  {
    Take(WithImage(figs), 10)
  }

  const HtmlOrder: seq<Heading> := [
    Summary, KeyFindings, KeyEquations, Methodology, GeneratedDiagrams,
    ExtractedFigures, Results, Conclusions, PeerReviewHeading]

  /** Whether the HTML report writes a section. */
  predicate InHtml(report: AnalysisReport, h: Heading) {
    match h
    case Summary | Methodology | Results | Conclusions => report.summary.Some?
    case KeyFindings => report.keyPoints != []
    case KeyEquations => DisplayEquations(report.extractedContent.equations) != []
    case GeneratedDiagrams => report.diagrams != []
    case ExtractedFigures => WithImage(report.extractedContent.figures) != []
    case PeerReviewHeading => report.review.Some?
    case ExtractedTables => false
  }

  /** The `<h2>` sections of the HTML report, in order: equations only
      when there is a display one, figures only when one has an image. */
  function HtmlSections(report: AnalysisReport): (r: seq<Heading>)
    ensures KeyEquations in r <==> DisplayEquations(report.extractedContent.equations) != []
    ensures ExtractedFigures in r <==> exists f :: f in report.extractedContent.figures && HasImage(f)
    ensures PeerReviewHeading in r <==> report.review.Some?
    ensures ExtractedTables !in r
  {
    WithImageEmpty(report.extractedContent.figures);
    assert HtmlOrder[2] == KeyEquations && HtmlOrder[5] == ExtractedFigures && HtmlOrder[8] == PeerReviewHeading;
    Select(HtmlReport, report, HtmlOrder)
  }

  /** The `##` sections of `key_points.md`: the equations section only when
      there is a display equation. */
  function KeyPointsSections(report: AnalysisReport): (r: seq<string>)
    ensures "Equations & Formulae" in r <==> DisplayEquations(report.extractedContent.equations) != []
    ensures |r| >= 2 && r[0] == "Core Contributions" && r[|r| - 1] == "Document Statistics"
  {
    ["Core Contributions"]
    + (if DisplayEquations(report.extractedContent.equations) != [] then ["Equations & Formulae"] else [])
    + ["Document Statistics"]
  }

  /** The authors line of the HTML report: the comma-joined names, or
      "Unknown" when that is empty. */
  function AuthorsLine(authors: seq<string>): (r: string)
    ensures r != ""
    ensures authors == [] ==> r == "Unknown"
    ensures Join(authors, ", ") != "" ==> r == Join(authors, ", ")
  {
    var joined := Join(authors, ", ");
    if joined == "" then "Unknown" else joined
  }

  /** `output_dir or Path("./output")`. */
  function OutputDir(outputDir: Option<string>): string {
    if outputDir.Some? then outputDir.value else "./output"
  }

  /** The image paths embedded for the generated diagrams, one per diagram. */
  function DiagramEmbeds(diagrams: seq<GeneratedDiagram>, outputDir: Option<string>): (r: seq<string>)
    ensures |r| == |diagrams|
    ensures forall k :: 0 <= k < |r| ==> r[k] == AssetPath(diagrams[k].imagePath, OutputDir(outputDir))
  {
    seq(|diagrams|, k requires 0 <= k < |diagrams| => AssetPath(diagrams[k].imagePath, OutputDir(outputDir)))
  }
}
