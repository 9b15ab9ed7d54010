/** The OCR engine's `extract`: the document record assembled from the
    markdown text, the layout blocks, the optional arXiv TeX source and the
    optional metadata sidecar, and the errors of the model load and the OCR
    run. The OCR run and the file reads are outside the model; what they
    leave is a parameter. */
module OcrDocument {
  import opened Text
  import opened Models
  import opened OcrSections
  import opened OcrBlocks
  import opened OcrMetadata
  import opened OcrReferences
  import opened EquationMerge

  /** The values of the metadata sidecar (`<paper>.meta.json`); a key that is
      absent is `None`. */
  datatype SourceMetadata = SourceMetadata(
    title: Option<string>,
    authors: Option<seq<string>>,
    abstractText: Option<string>)

  /** `if source_metadata.get(key): value = source_metadata[key]`: a sidecar
      value replaces the heuristic one only when it is present and not empty. */
  function Override<T>(sidecar: Option<seq<T>>, heuristic: seq<T>): (r: seq<T>)
    ensures sidecar.Some? && sidecar.value != [] ==> r == sidecar.value
    ensures sidecar.None? || sidecar.value == [] ==> r == heuristic
  {
    if sidecar.Some? && sidecar.value != [] then sidecar.value else heuristic
  }

  /** The sidecar's value under a key, `None` without a sidecar. */
  function SidecarTitle(sidecar: Option<SourceMetadata>): Option<string> {
    if sidecar.Some? then sidecar.value.title else None
  }

  function SidecarAuthors(sidecar: Option<SourceMetadata>): Option<seq<string>> {
    if sidecar.Some? then sidecar.value.authors else None
  }

  function SidecarAbstract(sidecar: Option<SourceMetadata>): Option<string> {
    if sidecar.Some? then sidecar.value.abstractText else None
  }

  /** Title, authors and abstract: the heuristics over the markdown, each
      replaced by the sidecar's value when that is present and not empty. */
  method FrontMatter(markdown: string, sections: seq<Section>, sidecar: Option<SourceMetadata>)
    returns (title: string, authors: seq<string>, abstractText: string)
    ensures title == Override(SidecarTitle(sidecar), ExtractTitle(markdown, sections))
    ensures authors == Override(SidecarAuthors(sidecar), ExtractAuthors(markdown))
    ensures abstractText == Override(SidecarAbstract(sidecar), ExtractAbstract(markdown, sections))
  {
    title := ExtractTitle(markdown, sections);
    authors := ExtractAuthors(markdown);
    abstractText := ExtractAbstract(markdown, sections);
    if sidecar.Some? {
      if sidecar.value.title.Some? && sidecar.value.title.value != [] {
        title := sidecar.value.title.value;
      }
      if sidecar.value.authors.Some? && sidecar.value.authors.value != [] {
        authors := sidecar.value.authors.value;
      }
      if sidecar.value.abstractText.Some? && sidecar.value.abstractText.value != [] {
        abstractText := sidecar.value.abstractText.value;
      }
    }
  }

  /** What the OCR run and the reads beside it leave for the
      post-processing: the markdown text (empty when no `.md` file was
      written), the layout blocks (none without a `_middle.json` file), and
      the TeX source and the metadata sidecar next to the PDF when they were
      read. */
  datatype OcrOutput = OcrOutput(markdown: string, blocks: seq<Block>, tex: Option<string>,
                                 sidecar: Option<SourceMetadata>)

  /** The record `extract` builds from what the run left, as a value. */
  function Document(out: OcrOutput, sourceFile: string, ocrModel: string): ExtractedContent {
    var sections := ParseSections(out.markdown);
    var equations := MergedEquations(out.markdown, out.tex);
    var tables := DocumentTables(out.blocks, out.markdown);
    var figures := DocumentFigures(out.blocks, out.markdown);
    ExtractedContent(out.markdown,
                     Override(SidecarTitle(out.sidecar), ExtractTitle(out.markdown, sections)),
                     Override(SidecarAuthors(out.sidecar), ExtractAuthors(out.markdown)),
                     Override(SidecarAbstract(out.sidecar), ExtractAbstract(out.markdown, sections)),
                     sections, equations, tables, figures,
                     AsReferences(Scan(Kinds(Lines(out.markdown)), 0, false, 0)),
                     ContentMetadata(sourceFile, ocrModel, |equations|, |tables|, |figures|))
  }

  /** How one call of `extract` went before the post-processing: the run
      left its output, or the MonkeyOCR package could not be imported, or
      loading the model raised, or the run (or a read of its output)
      raised. */
  datatype OcrRun = Parsed(output: OcrOutput) | NotInstalled | LoadFailed(message: string) | RunFailed(message: string)

  const NotInstalledMessage: string := "MonkeyOCR is not installed. Install with: pip install monkeyocr"

  /** `extract` on the PDF at `sourceFile`: the record built from the run's
      output, or the ExtractionError raised by `_load_model` or by the
      run. */
  function Extraction(run: OcrRun, sourceFile: string, ocrModel: string): (r: Result<ExtractedContent>)
    ensures r.Ok? <==> run.Parsed?
    ensures r.Ok? ==> r.value.fullText == run.output.markdown && r.value.metadata.sourceFile == sourceFile
                      && r.value.metadata.ocrModel == ocrModel
    ensures r.Err? ==> r.error.ExtractionError?
    ensures run.NotInstalled? ==> r.error.message == NotInstalledMessage
    ensures run.LoadFailed? ==> StartsWith(r.error.message, "Failed to load MonkeyOCR model: ")
                                && EndsWith(r.error.message, run.message)
    ensures run.RunFailed? ==> StartsWith(r.error.message, "MonkeyOCR extraction failed: ")
                               && EndsWith(r.error.message, run.message)
  {
    match run
    case Parsed(out) => Ok(Document(out, sourceFile, ocrModel))
    case NotInstalled => Err(ExtractionError(NotInstalledMessage))
    case LoadFailed(e) => Err(ExtractionError("Failed to load MonkeyOCR model: " + e))
    case RunFailed(e) => Err(ExtractionError("MonkeyOCR extraction failed: " + e))
  }

  /** `extract` after the OCR run: every part of the record comes from its
      extractor, the sidecar overrides title, authors and abstract when its
      values are not empty, and the counts in the metadata are the lengths
      of the lists. */
  method Extract(markdown: string, blocks: seq<Block>, tex: Option<string>, sidecar: Option<SourceMetadata>,
                 sourceFile: string, ocrModel: string) returns (content: ExtractedContent)
    ensures content.fullText == markdown
    ensures content.sections == ParseSections(markdown)
    ensures Merged(markdown, tex, content.equations)
    ensures TablesOf(blocks, markdown, content.tables)
    ensures FiguresOf(blocks, markdown, content.figures)
    ensures content.references == AsReferences(Scan(Kinds(Lines(markdown)), 0, false, 0))
    ensures content.title == Override(SidecarTitle(sidecar), ExtractTitle(markdown, content.sections))
    ensures content.authors == Override(SidecarAuthors(sidecar), ExtractAuthors(markdown))
    ensures content.abstractText == Override(SidecarAbstract(sidecar), ExtractAbstract(markdown, content.sections))
    ensures content.metadata == ContentMetadata(sourceFile, ocrModel, |content.equations|,
                                                |content.tables|, |content.figures|)
    ensures content == Document(OcrOutput(markdown, blocks, tex, sidecar), sourceFile, ocrModel)
  {
    var sections := ParseSections(markdown);
    var equations := AllEquations(markdown, tex);
    var tables := ExtractTables(blocks, markdown);
    var figures := ExtractFigures(blocks, markdown);
    var title, authors, abstractText := FrontMatter(markdown, sections, sidecar);
    var references := ExtractReferences(markdown);
    TablesOfUnique(blocks, markdown, tables);
    FiguresOfUnique(blocks, markdown, figures);
    content := ExtractedContent(markdown, title, authors, abstractText, sections, equations, tables, figures,
                                references, ContentMetadata(sourceFile, ocrModel, |equations|, |tables|, |figures|));
  }

  /** `extract`: the ExtractionError of the model load or of the run, or the
      post-processing of what the run left. */
  method ExtractPdf(run: OcrRun, sourceFile: string, ocrModel: string) returns (r: Result<ExtractedContent>)
    ensures r == Extraction(run, sourceFile, ocrModel)
  {
    match run
    case NotInstalled =>
      r := Err(ExtractionError(NotInstalledMessage));
    case LoadFailed(e) =>
      r := Err(ExtractionError("Failed to load MonkeyOCR model: " + e));
    case RunFailed(e) =>
      r := Err(ExtractionError("MonkeyOCR extraction failed: " + e));
    case Parsed(out) =>
      var content := Extract(out.markdown, out.blocks, out.tex, out.sidecar, sourceFile, ocrModel);
      r := Ok(content);
  }
}
