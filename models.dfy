/** The records the pipeline passes between its stages. Fields that a record is
    created without, and whose default therefore lives in the record's own
    definition, are `Option`s here: `None` stands for "left at its default". */
module Models {
  import opened Text

  /** The pipeline's exception classes, each carrying its message. */
  datatype Error =
    | InputError(message: string)
    | ExtractionError(message: string)
    | DiagramError(message: string)
    | ReviewError(message: string)
    /** Any other exception (a timeout, an operating-system error), which
        the code lets propagate unchanged. */
    | OtherException(message: string)

  datatype Result<T> = Ok(value: T) | Err(error: Error)

  datatype Section = Section(title: string, level: nat, content: string)

  datatype Equation = Equation(
    id: string,
    latex: string,
    context: string,
    section: string,
    isInline: bool,
    eqLabel: Option<string>,
    description: string)

  datatype Table = Table(
    id: string,
    content: string,
    caption: Option<string>,
    section: Option<string>,
    rows: Option<nat>,
    cols: Option<int>)

  datatype Figure = Figure(
    id: string,
    imagePath: Option<string>,
    caption: Option<string>,
    section: Option<string>,
    page: Option<int>)

  datatype Reference = Reference(id: string, text: string)

  /** The `metadata` dict of an extracted document. */
  datatype ContentMetadata = ContentMetadata(
    sourceFile: string,
    ocrModel: string,
    numEquations: nat,
    numTables: nat,
    numFigures: nat)

  datatype ExtractedContent = ExtractedContent(
    fullText: string,
    title: string,
    authors: seq<string>,
    abstractText: string,
    sections: seq<Section>,
    equations: seq<Equation>,
    tables: seq<Table>,
    figures: seq<Figure>,
    references: seq<Reference>,
    metadata: ContentMetadata)

  datatype GeneratedDiagram = GeneratedDiagram(
    diagramType: string,
    imagePath: string,
    caption: string,
    sourceContext: string,
    iterations: nat,
    format: string,
    isFallback: bool,
    error: Option<string>)

  datatype DimensionScore = DimensionScore(name: string, score: real, weight: real, justification: string)

  datatype RelatedWork = RelatedWork(title: string, authors: seq<string>, url: Option<string>, summary: string)

  /** A peer review; `dimensions` keeps the insertion order of the source's dict. */
  datatype PeerReview = PeerReview(
    overallScore: real,
    confidence: real,
    dimensions: seq<(string, DimensionScore)>,
    strengths: seq<string>,
    weaknesses: seq<string>,
    suggestions: seq<string>,
    relatedWorks: seq<RelatedWork>,
    rawReview: string)

  datatype KeyPoint = KeyPoint(point: string, evidence: string, section: string, importance: string)

  datatype PaperSummary = PaperSummary(
    oneSentence: string,
    abstractSummary: string,
    methodologySummary: string,
    resultsSummary: string,
    conclusions: string)

  datatype SourceType = PdfFile | PdfUrl | ArxivId | Doi

  datatype PaperInput = PaperInput(sourceType: SourceType, sourceValue: string)

  datatype ReportMetadata = ReportMetadata(
    ocrModel: string,
    diagramProvider: string,
    reviewModel: string,
    processingSeconds: real,
    analysedAt: string)

  /** What an analysis run is asked to produce; `None` diagram types means
      the generator's default. */
  datatype AnalysisOptions = AnalysisOptions(
    generateDiagrams: bool,
    generateReview: bool,
    diagramTypes: Option<seq<string>>)

  datatype AnalysisReport = AnalysisReport(
    paperInput: PaperInput,
    extractedContent: ExtractedContent,
    review: Option<PeerReview>,
    diagrams: seq<GeneratedDiagram>,
    summary: Option<PaperSummary>,
    keyPoints: seq<KeyPoint>,
    metadata: ReportMetadata)

  /** The display (non-inline) equations, in document order. */
  function DisplayEquations(eqs: seq<Equation>): (r: seq<Equation>)
    ensures |r| <= |eqs|
    ensures forall k :: 0 <= k < |r| ==> !r[k].isInline && r[k] in eqs
    ensures forall e :: e in eqs && !e.isInline ==> e in r
  {
    if eqs == [] then []
    else if eqs[0].isInline then DisplayEquations(eqs[1..])
    else [eqs[0]] + DisplayEquations(eqs[1..])
  }
}
