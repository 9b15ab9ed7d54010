/** `diagram_generator.py`: which context each diagram type draws from, the
    record a rendering or its local fallback yields, the five fallback
    stages, and the fan-in of `generate` with its progress reports. The
    rendering service and the drawing library enter as their outcomes. */
module DiagramGenerator {
  import opened Text
  import opened Models
  import opened Paths

  // ---------------------------------------------------------------- context

  /** The contents of the sections whose lower-cased title has a keyword, in
      order. */
  function MatchingContents(sections: seq<Section>, keywords: seq<string>): (r: seq<string>)
    ensures |r| <= |sections|
  {
    if sections == [] then []
    else
      var s := sections[|sections| - 1];
      MatchingContents(sections[..|sections| - 1], keywords)
      + (if ContainsAny(Lower(s.title), keywords) then [s.content] else [])
  }

  /** `_find_section_content`. */
  function SectionContent(content: ExtractedContent, keywords: seq<string>): string {
    Join(MatchingContents(content.sections, keywords), "\n\n")
  }

  const MethodologyKeywords: seq<string> := ["method", "approach", "framework", "model", "proposed"]
  const ArchitectureKeywords: seq<string> := ["architecture", "model", "system", "design", "structure"]
  const ResultsKeywords: seq<string> := ["results", "experiments", "evaluation", "performance"]

  /** The three diagram types `generate` knows. */
  predicate Known(dtype: string) { dtype == "methodology" || dtype == "architecture" || dtype == "results" }

  function Keywords(dtype: string): seq<string>
    requires Known(dtype)
  {
    if dtype == "methodology" then MethodologyKeywords
    else if dtype == "architecture" then ArchitectureKeywords
    else ResultsKeywords
  }

  /** The section text, else the abstract, else the first 2000 characters of
      the full text. */
  function Context(content: ExtractedContent, keywords: seq<string>): (r: string)
    ensures SectionContent(content, keywords) != [] ==> r == SectionContent(content, keywords)
    ensures SectionContent(content, keywords) == [] && content.abstractText != [] ==> r == content.abstractText
    ensures SectionContent(content, keywords) == [] && content.abstractText == [] ==>
      |r| <= 2000 && |r| <= |content.fullText| && r == content.fullText[..|r|]
  {
    var found := SectionContent(content, keywords);
    if found != [] then found
    else if content.abstractText != [] then content.abstractText
    else Take(content.fullText, 2000)
  }

  /** With no section title holding a keyword, the context is the abstract or
      the opening of the full text. */
  lemma {:induction false} ContextWithoutSections(content: ExtractedContent, keywords: seq<string>)
    requires forall k :: 0 <= k < |content.sections| ==> !ContainsAny(Lower(content.sections[k].title), keywords)
    ensures Context(content, keywords) == if content.abstractText != [] then content.abstractText else Take(content.fullText, 2000)
  {
    NoMatchingContents(content.sections, keywords);
  }

  lemma {:induction false} NoMatchingContents(sections: seq<Section>, keywords: seq<string>)
    requires forall k :: 0 <= k < |sections| ==> !ContainsAny(Lower(sections[k].title), keywords)
    ensures MatchingContents(sections, keywords) == []
    decreases |sections|
  {
    if sections != [] {
      NoMatchingContents(sections[..|sections| - 1], keywords);
    }
  }

  // ---------------------------------------------------------------- records

  /** The generator's settings. An empty `outputDir` stands for none given. */
  datatype Settings = Settings(outputDir: string, outputFormat: string)

  /** `self.output_dir`: `Path(output_dir)`, or `Path("./output/diagrams")`
      when no directory (or an empty one) is given. */
  function OutputDir(settings: Settings): PurePath {
    ParsePath(if settings.outputDir != "" then settings.outputDir else "./output/diagrams")
  }

  /** `str(self.output_dir / f"{diagram_type}.{self.output_format}")`. */
  function ImagePath(settings: Settings, dtype: string): string {
    Render(Slash(OutputDir(settings), ParsePath(dtype + "." + settings.outputFormat)))
  }

  /** The file name of a known type, parsed: one relative part for the type
      and the format up to its first `/`, then the parts of the rest. */
  lemma {:induction false} ImageFileParts(dtype: string, format: string)
    requires Known(dtype)
    ensures var pieces := Split(format, '/');
      ParsePath(dtype + "." + format) == PurePath(false, [dtype + "." + pieces[0]] + Components(pieces[1..]))
  {
    var x := dtype + ".";
    assert '/' !in x;
    SplitPrefix(x, format);
    var pieces := Split(format, '/');
    var all := Split(x + format, '/');
    assert all == [x + pieces[0]] + pieces[1..];
    assert |x + pieces[0]| >= 2;
    assert all[1..] == pieces[1..];
    assert Components(all) == [x + pieces[0]] + Components(pieces[1..]);
    assert (x + format)[0] == dtype[0];
    assert dtype + "." + format == x + format;
  }

  /** With a format free of `/`, the image path names the file
      `<type>.<format>` directly inside the output directory. */
  lemma {:induction false} ImagePathInOutputDir(settings: Settings, dtype: string)
    requires Known(dtype) && '/' !in settings.outputFormat
    ensures var dir := OutputDir(settings);
      ParsePath(ImagePath(settings, dtype)) == PurePath(dir.absolute, dir.parts + [dtype + "." + settings.outputFormat])
  {
    var dir, file := OutputDir(settings), ParsePath(dtype + "." + settings.outputFormat);
    ImageFileParts(dtype, settings.outputFormat);
    SplitNone(settings.outputFormat, '/');
    assert Split(settings.outputFormat, '/')[1..] == [];
    ParseNormal(if settings.outputDir != "" then settings.outputDir else "./output/diagrams");
    ParseNormal(dtype + "." + settings.outputFormat);
    SlashNormal(dir, file);
    ParseRender(Slash(dir, file));
  }

  /** Distinct diagram types never share an image path. */
  lemma {:induction false} ImagePathsDistinct(settings: Settings, a: string, b: string)
    requires Known(a) && Known(b) && a != b
    ensures ImagePath(settings, a) != ImagePath(settings, b)
  {
    var dir := OutputDir(settings);
    var fa, fb := ParsePath(a + "." + settings.outputFormat), ParsePath(b + "." + settings.outputFormat);
    ImageFileParts(a, settings.outputFormat);
    ImageFileParts(b, settings.outputFormat);
    ParseNormal(if settings.outputDir != "" then settings.outputDir else "./output/diagrams");
    ParseNormal(a + "." + settings.outputFormat);
    ParseNormal(b + "." + settings.outputFormat);
    SlashNormal(dir, fa);
    SlashNormal(dir, fb);
    var h := Split(settings.outputFormat, '/')[0];
    assert Slash(dir, fa).parts[|dir.parts|] == a + "." + h;
    assert Slash(dir, fb).parts[|dir.parts|] == b + "." + h;
    assert |a| != |b|;
    RenderInjective(Slash(dir, fa), Slash(dir, fb));
  }

  /** Without a directory the default one is used, and `./output/diagrams`
      loses its `.` part: the methodology image of a PNG generator is
      `output/diagrams/methodology.png`. */
  lemma {:induction false} DefaultImagePath()
    ensures ImagePath(Settings("", "png"), "methodology") == Join(["output", "diagrams", "methodology.png"], "/")
  {
    DefaultDir();
    DefaultFile();
    var dir, file := PurePath(false, ["output", "diagrams"]), PurePath(false, ["methodology.png"]);
    assert Slash(dir, file) == PurePath(false, ["output", "diagrams", "methodology.png"]);
  }

  lemma {:induction false} DefaultFile()
    ensures ParsePath("methodology" + "." + "png") == PurePath(false, ["methodology.png"])
  {
    assert "methodology" + "." + "png" == "methodology.png";
    SplitNone("methodology.png", '/');
    assert !StartsWith("methodology.png", "/");
  }

  lemma {:induction false} DefaultDir()
    ensures ParsePath("./output/diagrams") == PurePath(false, ["output", "diagrams"])
  {
    DefaultPieces();
    DefaultComponents();
    assert !StartsWith("./output/diagrams", "/");
  }

  lemma {:induction false} DefaultPieces()
    ensures Split("./output/diagrams", '/') == [".", "output", "diagrams"]
  {
    DefaultDirText();
    SplitThree(".", "output", "diagrams");
  }

  lemma {:induction false} DefaultDirText()
    ensures "./output/diagrams" == "." + ['/'] + "output" + ['/'] + "diagrams"
  {
  }

  lemma {:induction false} SplitThree(a: string, b: string, c: string)
    requires '/' !in a && '/' !in b && '/' !in c
    ensures Split(a + ['/'] + b + ['/'] + c, '/') == [a, b, c]
  {
    var tail := b + ['/'] + c;
    SplitTwo(b, c);
    SplitFirst(a, tail, '/');
    assert a + ['/'] + b + ['/'] + c == a + ['/'] + tail;
  }

  lemma {:induction false} SplitTwo(b: string, c: string)
    requires '/' !in b && '/' !in c
    ensures Split(b + ['/'] + c, '/') == [b, c]
  {
    SplitNone(c, '/');
    SplitFirst(b, c, '/');
  }

  lemma {:induction false} DefaultComponents()
    ensures Components([".", "output", "diagrams"]) == ["output", "diagrams"]
  {
    var pieces := [".", "output", "diagrams"];
    assert Components(pieces[2..]) == ["diagrams"];
    assert Components(pieces[1..]) == ["output", "diagrams"];
  }

  /** What the rendering service gives for a type: its output file with the
      number of refinement iterations and whether the file exists, or the
      message of the exception it raised. */
  datatype Rendering = Rendered(imagePath: string, iterations: nat, fileExists: bool) | ServiceFailed(message: string)

  /** `_generate_fallback_diagram`'s record. */
  function FallbackRecord(settings: Settings, dtype: string, title: string, context: string, error: string): GeneratedDiagram {
    GeneratedDiagram(dtype, ImagePath(settings, dtype), Title(dtype) + " overview (local fallback): " + title,
                     Take(context, 500), 1, settings.outputFormat, true, Some(error))
  }

  /** `_run_pipeline`: the service's file copied to the standard path, or, on
      any failure (a missing file included), the local fallback; the error
      of a missing file names the service's path as `Path` prints it. Every record
      is at the standard path, names its type, keeps at most 500 characters
      of its context, and has at least one iteration; a fallback record says
      so, carries the error, and has exactly one iteration. */
  function RunPipeline(settings: Settings, dtype: string, title: string, context: string, rendering: Rendering): (d: GeneratedDiagram)
    ensures d.diagramType == dtype && d.imagePath == ImagePath(settings, dtype) && d.format == settings.outputFormat
    ensures |d.sourceContext| <= 500 && |d.sourceContext| <= |context| && d.sourceContext == context[..|d.sourceContext|]
    ensures d.iterations >= 1
    ensures d.isFallback <==> !(rendering.Rendered? && rendering.fileExists)
    ensures d.isFallback ==> d.iterations == 1 && d.error.Some?
                             && d.caption == Title(dtype) + " overview (local fallback): " + title
    ensures rendering.ServiceFailed? ==> d.error == Some(rendering.message)
    ensures rendering.Rendered? && !rendering.fileExists ==>
      d.error == Some("PaperBanana output file not found: " + Render(ParsePath(rendering.imagePath)))
    ensures !d.isFallback ==> d.error.None? && d.iterations == (if rendering.iterations > 0 then rendering.iterations else 1)
  {
    match rendering
    case Rendered(src, n, exists_) =>
      if exists_ then
        GeneratedDiagram(dtype, ImagePath(settings, dtype), Title(dtype) + " diagram: " + title,
                         Take(context, 500), if n > 0 then n else 1, settings.outputFormat, false, None)
      else FallbackRecord(settings, dtype, title, context, "PaperBanana output file not found: " + Render(ParsePath(src)))
    case ServiceFailed(msg) => FallbackRecord(settings, dtype, title, context, msg)
  }

  // ---------------------------------------------------------------- fallback stages

  const ModelTerms: seq<string> := ["lagrangian", "finite element", "tl-fea", "framework"]
  const ConstraintTerms: seq<string> := ["constraint", "kinematic", "multibody"]
  const ContactTerms: seq<string> := ["contact", "friction", "collision"]
  const EvaluationTerms: seq<string> := ["experiment", "evaluation", "results"]

  /** `_derive_fallback_stages`: five labels, the middle three chosen by the
      terms the lower-cased context holds. */
  method DeriveFallbackStages(context: string) returns (stages: seq<string>)
    ensures |stages| == 5 && stages[0] == "Paper Input" && stages[4] == "Outputs & Analysis"
    ensures stages[1] == (if ContainsAny(Lower(context), ModelTerms) then "TL-FEA Formulation" else "Method Formulation")
    ensures stages[2] == (if ContainsAny(Lower(context), ConstraintTerms) then "Kinematic Constraints" else "Core Dynamics")
    ensures stages[3] == "Contact & Friction" <==> ContainsAny(Lower(context), ContactTerms)
    ensures stages[3] == "Evaluation" <==> !ContainsAny(Lower(context), ContactTerms) && ContainsAny(Lower(context), EvaluationTerms)
    ensures stages[3] == "Numerical Solution" <==>
      !ContainsAny(Lower(context), ContactTerms) && !ContainsAny(Lower(context), EvaluationTerms)
  {
    var lower := Lower(context);
    var model, constraint := ContainsAny(lower, ModelTerms), ContainsAny(lower, ConstraintTerms);
    var contact, evaluation := ContainsAny(lower, ContactTerms), ContainsAny(lower, EvaluationTerms);
    stages := ["Paper Input"];
    if model {
      stages := stages + ["TL-FEA Formulation"];
    } else {
      stages := stages + ["Method Formulation"];
    }
    if constraint {
      stages := stages + ["Kinematic Constraints"];
    } else {
      stages := stages + ["Core Dynamics"];
    }
    if contact {
      stages := stages + ["Contact & Friction"];
    } else if evaluation {
      stages := stages + ["Evaluation"];
    } else {
      stages := stages + ["Numerical Solution"];
    }
    ghost var third := stages[3];
    assert third == "Contact & Friction" <==> contact;
    assert third == "Evaluation" <==> !contact && evaluation;
    assert third == "Numerical Solution" <==> !contact && !evaluation;
    stages := stages + ["Outputs & Analysis"];
    assert |stages| == 5 && stages[3] == third;
    stages := Take(stages, 5);
  }

  /** The nine labels a fallback diagram can show. */
  const StageLabels: seq<string> := [
    "Paper Input", "TL-FEA Formulation", "Method Formulation", "Kinematic Constraints", "Core Dynamics",
    "Contact & Friction", "Evaluation", "Numerical Solution", "Outputs & Analysis"]

  /** `_stage_detail`. */
  function StageDetail(stage: string): (detail: string)
    ensures stage !in StageLabels <==> detail == "analysis stage"
  {
    match stage
    case "Paper Input" => "arXiv/PDF ingestion"
    case "TL-FEA Formulation" => "state vars + element model"
    case "Method Formulation" => "problem statement + setup"
    case "Kinematic Constraints" => "constraints and coupling"
    case "Core Dynamics" => "forces and motion update"
    case "Contact & Friction" => "interaction and stability"
    case "Evaluation" => "metrics and validation"
    case "Numerical Solution" => "solver and convergence"
    case "Outputs & Analysis" => "report, equations, diagrams"
    case _ => "analysis stage"
  }

  // ---------------------------------------------------------------- generate

  /** What one requested type yields: nothing (an unknown type), a record, or
      the message of the exception that escaped (the fallback drawing
      failed). */
  datatype Outcome = Skipped | Made(diagram: GeneratedDiagram) | Escaped(message: string)

  /** The services' outcomes per type: the rendering, and whether the local
      drawing raises (with its message). */
  datatype Services = Services(rendering: string -> Rendering, drawingError: string -> Option<string>)

  /** `_run_one` for a type: its outcome. */
  function RunOne(settings: Settings, content: ExtractedContent, dtype: string, services: Services): Outcome {
    if !Known(dtype) then Skipped
    else
      var context := Context(content, Keywords(dtype));
      var d := RunPipeline(settings, dtype, content.title, context, services.rendering(dtype));
      if d.isFallback && services.drawingError(dtype).Some? then Escaped(services.drawingError(dtype).value)
      else Made(d)
  }

  const Queued: string := "\U{23F3} Queued"
  const Generating: string := "\U{1F504} Generating\U{2026}"
  const Done: string := "\U{2713} Done"
  const DoneFallback: string := "\U{2713} Done (fallback)"
  const UnknownType: string := "\U{26A0}\U{FE0F} Unknown type"
  const Failed: string := "\U{2717} Failed"

  /** The final status `_run_one` reports for an outcome. */
  function FinalStatus(o: Outcome): (status: string)
    ensures status in [Done, DoneFallback, UnknownType, Failed]
  {
    match o
    case Skipped => UnknownType
    case Made(d) => if d.isFallback then DoneFallback else Done
    case Escaped(_) => Failed
  }

  /** `None` asks for the methodology diagram alone. */
  function Requested(types: Option<seq<string>>): seq<string> {
    if types.None? then ["methodology"] else types.value
  }

  function Outcomes(settings: Settings, content: ExtractedContent, types: seq<string>, services: Services): (r: seq<Outcome>)
    ensures |r| == |types| && forall i :: 0 <= i < |r| ==> r[i] == RunOne(settings, content, types[i], services)
  {
    seq(|types|, i requires 0 <= i < |types| => RunOne(settings, content, types[i], services))
  }

  /** The fan-in: the records of the outcomes, in order. */
  function Kept(outcomes: seq<Outcome>): (r: seq<GeneratedDiagram>)
    ensures |r| <= |outcomes|
  {
    if outcomes == [] then []
    else
      var o := outcomes[|outcomes| - 1];
      Kept(outcomes[..|outcomes| - 1]) + (if o.Made? then [o.diagram] else [])
  }

  /** A progress report: the type and its status. */
  type Report = (string, string)

  function QueuedReports(types: seq<string>): (r: seq<Report>)
    ensures |r| == |types| && forall i :: 0 <= i < |r| ==> r[i] == (types[i], Queued)
  {
    seq(|types|, i requires 0 <= i < |types| => (types[i], Queued))
  }

  /** The two reports of each run, run after run. */
  function RunReports(types: seq<string>, outcomes: seq<Outcome>): (r: seq<Report>)
    requires |types| == |outcomes|
    ensures |r| == 2 * |types|
  {
    if types == [] then []
    else
      var n := |types| - 1;
      RunReports(types[..n], outcomes[..n]) + [(types[n], Generating), (types[n], FinalStatus(outcomes[n]))]
  }

  /** `generate`: every type is queued, then run in order; the records that
      came out are returned in request order. */
  method Generate(settings: Settings, content: ExtractedContent, types: Option<seq<string>>, services: Services)
    returns (diagrams: seq<GeneratedDiagram>, reports: seq<Report>)
    ensures var req := Requested(types);
      var outcomes := Outcomes(settings, content, req, services);
      && diagrams == Kept(outcomes)
      && reports == QueuedReports(req) + RunReports(req, outcomes)
  {
    var req := if types.None? then ["methodology"] else types.value;
    reports := [];
    for i := 0 to |req|
      invariant reports == QueuedReports(req[..i])
    {
      reports := reports + [(req[i], Queued)];
    }
    assert req[..|req|] == req;
    var results := RunAll(req, t => RunOne(settings, content, t, services));
    assert results.0 == Outcomes(settings, content, req, services);
    reports := reports + results.1;
    diagrams := FanIn(results.0);
  }

  /** The runs, one after the other, with their reports; `run` gives the
      outcome of one type. */
  method RunAll(req: seq<string>, run: string -> Outcome) returns (results: (seq<Outcome>, seq<Report>))
    ensures |results.0| == |req| && forall k :: 0 <= k < |req| ==> results.0[k] == run(req[k])
    ensures results.1 == RunReports(req, results.0)
  {
    var outcomes: seq<Outcome> := [];
    var reports: seq<Report> := [];
    for i := 0 to |req|
      invariant |outcomes| == i
      invariant forall k :: 0 <= k < i ==> outcomes[k] == run(req[k])
      invariant reports == RunReports(req[..i], outcomes)
    {
      var o := run(req[i]);
      ghost var before := outcomes;
      outcomes := outcomes + [o];
      ghost var done := req[..i + 1];
      assert done[..i] == req[..i] && outcomes[..i] == before && done[i] == req[i] && outcomes[i] == o;
      assert RunReports(done, outcomes)
        == RunReports(done[..i], outcomes[..i]) + [(done[i], Generating), (done[i], FinalStatus(outcomes[i]))];
      reports := reports + [(req[i], Generating), (req[i], FinalStatus(o))];
    }
    assert req[..|req|] == req;
    results := (outcomes, reports);
  }

  /** The loop over the gathered results. */
  method FanIn(outcomes: seq<Outcome>) returns (diagrams: seq<GeneratedDiagram>)
    ensures diagrams == Kept(outcomes)
  {
    diagrams := [];
    for i := 0 to |outcomes|
      invariant diagrams == Kept(outcomes[..i])
    {
      assert outcomes[..i + 1][..i] == outcomes[..i];
      if outcomes[i].Made? {
        diagrams := diagrams + [outcomes[i].diagram];
      }
    }
    assert outcomes[..|outcomes|] == outcomes;
  }

  /** The types whose run gives a record: known ones whose fallback drawing,
      if it was needed, did not raise. */
  function Surviving(settings: Settings, content: ExtractedContent, types: seq<string>, services: Services): (r: seq<string>)
    ensures |r| <= |types|
  {
    if types == [] then []
    else
      var t := types[|types| - 1];
      Surviving(settings, content, types[..|types| - 1], services)
      + (if RunOne(settings, content, t, services).Made? then [t] else [])
  }

  function TypesOf(ds: seq<GeneratedDiagram>): (r: seq<string>)
    ensures |r| == |ds| && forall i :: 0 <= i < |r| ==> r[i] == ds[i].diagramType
  {
    seq(|ds|, i requires 0 <= i < |ds| => ds[i].diagramType)
  }

  /** The fan-in keeps request order: the returned records are, type by
      type, those of the surviving requested types; unknown types never
      appear. */
  lemma {:induction false} FanInOrder(settings: Settings, content: ExtractedContent, types: seq<string>, services: Services)
    ensures TypesOf(Kept(Outcomes(settings, content, types, services))) == Surviving(settings, content, types, services)
    ensures forall d :: d in Kept(Outcomes(settings, content, types, services)) ==> Known(d.diagramType)
    decreases |types|
  {
    if types != [] {
      var n := |types| - 1;
      var os := Outcomes(settings, content, types, services);
      FanInOrder(settings, content, types[..n], services);
      assert os[..n] == Outcomes(settings, content, types[..n], services);
      var o := os[n];
      var k := Kept(os[..n]);
      assert Kept(os) == k + (if o.Made? then [o.diagram] else []);
      assert TypesOf(Kept(os)) == TypesOf(k) + (if o.Made? then [o.diagram.diagramType] else []);
    }
  }

  /** Each requested type is queued first; then, type by type, it is
      reported as generating and then with exactly one final status. */
  lemma {:induction false} ReportsShape(types: seq<string>, outcomes: seq<Outcome>)
    requires |types| == |outcomes|
    ensures var r := RunReports(types, outcomes);
      forall i :: 0 <= i < |types| ==>
        && r[2 * i] == (types[i], Generating)
        && r[2 * i + 1] == (types[i], FinalStatus(outcomes[i]))
    decreases |types|
  {
    if types != [] {
      var n := |types| - 1;
      ReportsShape(types[..n], outcomes[..n]);
    }
  }
}
