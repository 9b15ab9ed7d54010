# Research Analyser: a verified model of the pipeline core

Research Analyser turns a paper into an analysis report. The paper can be a local PDF, an arXiv id or URL, a DOI or a plain URL. The pipeline runs these stages:

1. Classify and resolve the input (`input_handler.py`).
2. OCR the paper and post-process the markdown into an extracted-content record: equations, sections, tables, figures, title, authors, abstract and references (`ocr_engine.py`).
3. Launch two tasks and gather them (`analyser.py`):
   - diagram generation, with a local fallback (`diagram_generator.py`);
   - a peer review, a fixed chain of workflow nodes with a linear score formula (`reviewer.py`).
4. Assemble the summary and the key points (`analyser.py`).
5. Write the markdown, JSON and HTML outputs (`report_generator.py`).

Beside the pipeline, the model also covers:
- a retrieval corpus and ranking retriever for STORM (`storm_reporter.py`);
- the narration script and its chunking for speech synthesis (`tts_engine.py`);
- a side-by-side comparison of a local and an external review (`comparison.py`).

The project models the deterministic logic around the services the pipeline calls. Every regular expression of the extractor is a recognizer over characters, written to return what Python's `re` returns for that pattern.

The orchestrator composes the modelled components: the input handler, the OCR engine's post-processing, the diagram generator and the reviewer. The outside services those components call enter as parameters that stand for their answers. They are the OCR model run, the download, the diagram renderer, the language models, the web search and the speech model. Number formatting (`:.1f`, `:.2f`) is a function parameter too.

The code is written in one of three forms, following the source:
- Pure code is written as functions with lemmas.
- Code that builds lists step by step is written as methods with loops. Each loop is proved against a specification function, for example:
  - the equation scan;
  - the pipe-table scanner;
  - the references scanner;
  - the chunk packer;
  - the ranking loop;
  - the retry loop.
- The review workflow, whose nodes update one shared state, is a class.

One module per concern:

| File | Contents |
|---|---|
| `text.dfy` | Python string semantics: `isspace`, `strip`, `split`, `join`, `lower`, zero-padded ids |
| `paths.dfy` | `pathlib` paths: parsing, printing and `/` |
| `models.dfy` | the records |
| `ocr_*.dfy` | the OCR engine |
| `reviewer.dfy` | scoring and the review workflow |
| `diagram_generator.dfy` | diagram generation |
| `analyser.dfy` | the orchestrator |
| `input_handler.dfy` | input classification |
| `storm_reporter.dfy` | the STORM retrieval corpus and retriever |
| `report_generator.dfy` | report assembly |
| `tts_engine.dfy` | narration |
| `comparison.dfy` | review comparison |

`research_analyser/models.py` is not part of this model. The records in `models.dfy` are defined from the fields the code reads and writes.

Where the code and its documentation disagree, the model follows the code. Examples:
- The review workflow builds seven nodes, although its docstring announces nine.
- The title heuristic's `Untitled` default is unreachable, because an empty first line yields `""`.
- The analyser makes one keyword pass per summary and then a fallback.
- The pipe-table caption is taken only from the line after the table, although a comment says "before or after".

## Model

| member | source | states |
|---|---|---|
| Text.Pad3 | research_analyser/ocr_engine.py:184 | `f"{n:03d}"` is at least three characters, all digits |
| Text.FormatId | research_analyser/ocr_engine.py:184 | an id starts with its prefix (`eq_`, `table_`, `fig_`, `ref_`) |
| Text.Pad3RoundTrip | research_analyser/ocr_engine.py:184 | the padded digits read back as the counter |
| Text.FormatIdInjective | research_analyser/ocr_engine.py:184 | two ids with the same prefix are equal only for equal counters |
| Text.FormatIdDistinct | research_analyser/ocr_engine.py:184 | distinct counters give distinct ids |
| Models.DisplayEquations | research_analyser/report_generator.py:75-77 | the display equations are non-inline equations of the list, at most as many, and include every non-inline one |
| OcrPatterns.DisplayNext | research_analyser/ocr_engine.py:25-31 | a display-pattern search, when it finds a match, finds a non-empty span inside the text at or after the search start |
| OcrPatterns.DisplayMatches | research_analyser/ocr_engine.py:25-31 | `finditer` of a display pattern gives matches in text order, inside the text and without overlap |
| OcrPatterns.DisplayNextShape | research_analyser/ocr_engine.py:25-31 | a display match is opener, non-empty lazy group and the first closer after it, and no opener occurs before it |
| OcrPatterns.DisplayMatchShape | research_analyser/ocr_engine.py:25-31 | every match of a display scan has that shape |
| OcrPatterns.DisplayUpTo | research_analyser/ocr_engine.py:165-166 | the matches of the display patterns, scanned pattern by pattern, all lie inside the text |
| OcrPatterns.InlineCloser | research_analyser/ocr_engine.py:33-35 | the closing lone `$` found is a real closer, and the group before it crosses no newline |
| OcrPatterns.InlineNext | research_analyser/ocr_engine.py:33-35 | an inline search that finds a match finds a non-empty span inside the text at or after the search start |
| OcrPatterns.InlineMatches | research_analyser/ocr_engine.py:33-35 | `finditer` of the inline pattern gives matches in text order, without overlap |
| OcrPatterns.InlineNextShape | research_analyser/ocr_engine.py:33-35 | an inline match is a lone `$`, a non-empty one-line group and a lone closing `$` |
| OcrPatterns.InlineMatchShape | research_analyser/ocr_engine.py:33-35 | every inline match has that shape |
| OcrPatterns.LabelShape | research_analyser/ocr_engine.py:37 | a found equation label starts with `eq:`, has a name after it and contains no `}` |
| OcrPatterns.HashEnd | research_analyser/ocr_engine.py:40 | the `#` run found is maximal |
| OcrPatterns.LastNotNewline | research_analyser/ocr_engine.py:40 | the position found holds no newline and lies in the range |
| OcrPatterns.HeadingAt | research_analyser/ocr_engine.py:40 | a heading match starts where it was tried, lies in the text and has a level between 1 and 6 |
| OcrPatterns.Headings | research_analyser/ocr_engine.py:40 | `finditer` of the heading pattern gives headings of level 1-6 inside the text, in order and without overlap |
| OcrPatterns.SubEnd | research_analyser/ocr_engine.py:41-44 | the `sub` repetitions end within the text |
| OcrPatterns.LatexSectionAt | research_analyser/ocr_engine.py:41-44 | a LaTeX section match starts where it was tried and lies in the text |
| OcrPatterns.LatexSections | research_analyser/ocr_engine.py:41-44 | `finditer` of the LaTeX section pattern gives matches in order, inside the text and without overlap |
| OcrSections.ParseSections | research_analyser/ocr_engine.py:342-360 | one section per heading match |
| OcrSections.SectionsFollowHeadings | research_analyser/ocr_engine.py:342-360 | section i has the level (1 to 6) and stripped title of heading i, and its content is the stripped text between the end of that heading and the start of the next one, or the end of the text |
| OcrSections.HeadingTitleStripped | research_analyser/ocr_engine.py:348 | a heading title has no surrounding whitespace |
| OcrSections.HeadingsFound | research_analyser/ocr_engine.py:345 | each heading in the `finditer` list is exactly what the pattern finds at that heading's start |
| OcrSections.Insert | research_analyser/ocr_engine.py:372 | inserting a marker adds exactly that marker to the list's contents |
| OcrSections.InsertSorted | research_analyser/ocr_engine.py:372 | inserting into a list sorted by position keeps it sorted |
| OcrSections.SortByPos | research_analyser/ocr_engine.py:372 | the sort returns a permutation of the markers, sorted by position |
| OcrSections.FindContainingSection | research_analyser/ocr_engine.py:362-380 | the method collects heading then LaTeX markers, sorts them and scans to the last marker at or before the position, agreeing with the functional definition |
| OcrSections.LastAtOrBeforeIsLast | research_analyser/ocr_engine.py:374-378 | on a sorted list the scan gives the title of a marker at or before the position that no later such marker follows, or the initial title when there is none |
| OcrSections.ContainingSectionIsLastMarker | research_analyser/ocr_engine.py:362-380 | the containing section is the title of the last marker at or before the position, and `Preamble` when none is |
| OcrSections.ContainingSection | research_analyser/ocr_engine.py:362-380 | `_find_containing_section` as a definition; ContainingSectionIsLastMarker states which title it gives |
| OcrEquations.DescribeShape | research_analyser/ocr_engine.py:382-402 | the relevance text starts by naming the section and ends with the potential use chosen for the equation's kind |
| OcrEquations.RoleOrder | research_analyser/ocr_engine.py:386-397 | the kinds are tried in order on the lower-cased LaTeX: aggregation iff an aggregation token occurs, dynamic iff no aggregation token but a dynamic one, relation iff neither of those but a relation token |
| OcrEquations.RelationTokensRedundant | research_analyser/ocr_engine.py:392 | `\mathbf{r}` and `\mathbf{n}` are redundant in the relation list: a relation token occurs iff `=` or `\mathbf` does |
| OcrEquations.ContextIsSubstring | research_analyser/ocr_engine.py:171-173 | the context of a match is a slice of the text (100 characters either side, clipped, stripped) |
| OcrEquations.KeptSnoc | research_analyser/ocr_engine.py:166-204 | one more match adds its slot, numbered by the shared counter, unless it is a dropped inline match |
| OcrEquations.KeptSlots | research_analyser/ocr_engine.py:198-204 | every kept slot comes from the pass's matches, has the pass's flag and a counter value in the pass's range, and inline slots hold LaTeX of at least three characters |
| OcrEquations.KeptIncreasing | research_analyser/ocr_engine.py:167-199 | the counter values of one pass rise strictly |
| OcrEquations.KeptDisplay | research_analyser/ocr_engine.py:165-195 | the display pass drops nothing and numbers its matches consecutively |
| OcrEquations.PassesDisplayFirst | research_analyser/ocr_engine.py:162-195 | the display equations come first, numbered from one without gaps |
| OcrEquations.PassesInlineAfter | research_analyser/ocr_engine.py:197-223 | after them come only inline equations, each with LaTeX of at least three characters and a number past the display count |
| OcrEquations.PassesIncreasing | research_analyser/ocr_engine.py:162-223 | the numbers of the two passes together rise strictly |
| OcrEquations.PassesBounded | research_analyser/ocr_engine.py:162-223 | every number lies between one and the count of all matches, dropped ones included |
| OcrEquations.EquationForFields | research_analyser/ocr_engine.py:168-222 | a record's id is `eq_` and its counter value padded to three digits, its flag is its pass, its LaTeX the stripped group, its context and section those of the match |
| OcrEquations.BuiltFields | research_analyser/ocr_engine.py:182-222 | each built record takes id, pass flag and LaTeX from its slot |
| OcrEquations.BuiltIdsDistinct | research_analyser/ocr_engine.py:184-213 | records built from strictly rising numbers have distinct ids |
| OcrEquations.PassesIds | research_analyser/ocr_engine.py:159-225 | display records come first with ids `eq_001` onwards, inline records follow with LaTeX of at least three characters, and all ids are distinct |
| OcrEquations.EquationIds | research_analyser/ocr_engine.py:159-225 | the same for the result of `extract_equations` on a text |
| OcrEquations.PassesSources | research_analyser/ocr_engine.py:166-222 | each record comes from one of the matches: LaTeX, context and section are those of the match |
| OcrEquations.EquationSources | research_analyser/ocr_engine.py:159-225 | each record of `extract_equations` comes from a display or inline match of the text |
| OcrEquations.BuildEquation | research_analyser/ocr_engine.py:168-194 | the record built for a match is the one its slot defines |
| OcrEquations.BuiltSnoc | research_analyser/ocr_engine.py:182-211 | appending a slot's record keeps the records one for one with the slots |
| OcrEquations.KeptDisplayStep | research_analyser/ocr_engine.py:166-167 | one more display match adds exactly one slot with the next number |
| OcrEquations.KeptInlineStep | research_analyser/ocr_engine.py:198-204 | one more inline match adds its slot unless dropped |
| OcrEquations.AppendDisplay | research_analyser/ocr_engine.py:165-195 | the loop over one display pattern's matches appends their records and advances the counter by their number |
| OcrEquations.AppendInline | research_analyser/ocr_engine.py:198-223 | the inline loop appends a record for every match except short ones, which still take a counter value |
| OcrEquations.ExtractEquations | research_analyser/ocr_engine.py:159-225 | the records are one for one with the kept slots of the display passes then the inline pass, on one counter |
| OcrEquations.Renumbered | research_analyser/ocr_engine.py:112-114 | the TeX-source equations keep everything but their id, which becomes `eq_<existing + k + 1>` |
| EquationMerge.RenumberedRecord | research_analyser/ocr_engine.py:113-114 | giving a record a new id is the same as building it from its match with the new number |
| EquationMerge.RenumberedBuilt | research_analyser/ocr_engine.py:111-114 | renumbering the TeX records builds them from the TeX slots shifted to follow the given count |
| EquationMerge.RenumberFrom | research_analyser/ocr_engine.py:113-114 | the `enumerate(..., start=...)` loop gives the k-th TeX record the id `eq_<start + k>` and changes nothing else |
| EquationMerge.DroppedFirstDisplay | research_analyser/ocr_engine.py:165-166 | the markdown `$a$ $bcd$` has no display match |
| EquationMerge.DroppedFirstInline | research_analyser/ocr_engine.py:198 | it has the two inline matches `a` and `bcd` |
| EquationMerge.KeptDroppedThenKept | research_analyser/ocr_engine.py:199-204 | a dropped inline match followed by a kept one leaves only the second, with the second counter value |
| EquationMerge.DroppedFirstSlots | research_analyser/ocr_engine.py:159-225 | `$a$ $bcd$` keeps one equation, `bcd`, numbered 2 |
| EquationMerge.MergedAsWrittenCollides | research_analyser/ocr_engine.py:106-115 | as written, numbering the TeX equations on from the number of kept markdown records gives the markdown `bcd` and the first TeX equation the same id `eq_002` |
| EquationMerge.JoinedHeads | research_analyser/ocr_engine.py:113-115 | the first markdown record and the first TeX record carry their slots' ids |
| EquationMerge.JoinedIdsDistinct | research_analyser/ocr_engine.py:106-115 | joined records whose numbers rise strictly carry no id twice |
| EquationMerge.MergedSlotsIncreasing | research_analyser/ocr_engine.py:106-115 | numbering the TeX slots on from the markdown pass's final counter keeps all numbers strictly rising |
| EquationMerge.RisingThenShifted | research_analyser/ocr_engine.py:113 | rising numbers at most n followed by n+1, n+2, … rise strictly |
| EquationMerge.MergedIdsDistinct | research_analyser/ocr_engine.py:106-115 | the corrected merge carries no equation id twice |
| EquationMerge.JoinParts | research_analyser/ocr_engine.py:115 | the markdown records followed by the TeX records are the joined list |
| EquationMerge.TexEquations | research_analyser/ocr_engine.py:110-114 | the TeX pass's records are built from its slots shifted past the given count |
| EquationMerge.TexPart | research_analyser/ocr_engine.py:107-118 | with a TeX source its records follow the markdown pass's final counter; without one there are none |
| EquationMerge.AllEquations | research_analyser/ocr_engine.py:106-115 | the equations of a document are the markdown records followed by the renumbered TeX records (corrected numbering), and they are the merged list of the definition |
| EquationMerge.MergedEquations | research_analyser/ocr_engine.py:106-115 | the merged equations as a value: it is a merged list |
| EquationMerge.MergedUnique | research_analyser/ocr_engine.py:106-115 | the markdown and the TeX source determine the merged list: any merged list is this one |
| EquationMerge.BuiltUnique | research_analyser/ocr_engine.py:168-222 | the slots determine their records |
| OcrTables.TableKeywordEnd | research_analyser/ocr_engine.py:277 | the keyword `Table` or `Tab`/`Tab.` spans at least three characters of the line |
| OcrTables.RestGroup | research_analyser/ocr_engine.py:277 | the caption group, when there is one, is non-empty and ends the line |
| OcrTables.CaptionOf | research_analyser/ocr_engine.py:276-281 | a caption is a non-empty tail of the stripped line |
| OcrTables.CaptionNamesTable | research_analyser/ocr_engine.py:277 | a caption line has `tab` in some case within its first characters, after at most two stars |
| OcrTables.TableFlags | research_analyser/ocr_engine.py:262-265 | one table-line flag per line |
| OcrTables.RunEnd | research_analyser/ocr_engine.py:265-267 | the inner loop stops at the first line that is not a table line: every line before is one |
| OcrTables.RunsOrderedCons | research_analyser/ocr_engine.py:260-292 | a run that ends before all later runs keeps the list ordered |
| OcrTables.RunsSound | research_analyser/ocr_engine.py:260-292 | every run the scan turns into a table is a maximal run of table lines with at least three lines and a separator second line, and the runs come in text order without overlap |
| OcrTables.RunEndOfMaximal | research_analyser/ocr_engine.py:265-267 | collecting from anywhere inside a maximal run ends at that run's end |
| OcrTables.RunsComplete | research_analyser/ocr_engine.py:260-292 | every maximal qualifying run of table lines becomes a table |
| OcrTables.TableOfRunIs | research_analyser/ocr_engine.py:270-290 | the table of a run: id `table_<n>`, the lines joined by newlines, the caption of the next line, rows = lines − 2, cols = header pipes − 1 |
| OcrTables.TableOfRunFields | research_analyser/ocr_engine.py:270-290 | the same field by field |
| OcrTables.TablesForSnoc | research_analyser/ocr_engine.py:282-290 | appending the next run's table keeps the tables one for one with the runs, numbered from one |
| OcrTables.RunsAfterRun | research_analyser/ocr_engine.py:264-290 | passing a run of table lines adds it to the runs exactly when it qualifies |
| OcrTables.RunsAfterSkip | research_analyser/ocr_engine.py:291-292 | passing a line that is not a table line adds nothing |
| OcrTables.CollectRun | research_analyser/ocr_engine.py:264-267 | the inner loop collects exactly the lines of the run starting at the index and stops at its end |
| OcrTables.AssembleTable | research_analyser/ocr_engine.py:270-290 | the table built from the collected lines is the table of that run |
| OcrTables.ExtractPipeTables | research_analyser/ocr_engine.py:254-293 | the tables are one for one with the qualifying runs of the text's lines, in order and numbered from one |
| OcrTables.PipeTableShape | research_analyser/ocr_engine.py:254-293 | the k-th table comes from a maximal qualifying run, has id `table_<k+1>`, the run's lines as content, at least one data row, cols from the header's pipes and the caption of the line after the run |
| OcrTables.RunsBounded | research_analyser/ocr_engine.py:260-269 | every run the scan keeps has at least three lines and lies in the text |
| OcrTables.PipeTables | research_analyser/ocr_engine.py:254-293 | the pipe tables as a value: one per kept run, numbered from one |
| OcrTables.PipeTablesUnique | research_analyser/ocr_engine.py:254-293 | the kept runs determine the tables: any list with a table per run is this one |
| OcrTables.PipeTablesComplete | research_analyser/ocr_engine.py:254-293 | every maximal qualifying run appears among the tables |
| OcrFigures.FigureKeywordEnd | research_analyser/ocr_engine.py:328 | the keyword `Figure` or `Fig`/`Fig.` spans at least three characters starting with `fig` in some case |
| OcrFigures.GroupStart | research_analyser/ocr_engine.py:328 | backtracking settles on the last start from which at least five characters remain on the line, and none if there is no such start |
| OcrFigures.GroupWithinLine | research_analyser/ocr_engine.py:328 | a group that takes the rest of the line or two hundred characters holds no newline and ends at a newline, at the end of the text or after two hundred characters |
| OcrFigures.GroupAfterDigits | research_analyser/ocr_engine.py:328 | what follows the digits yields a group of five to two hundred characters on one line ending the match |
| OcrFigures.DigitsAfterKeyword | research_analyser/ocr_engine.py:328 | the keyword starts with `fig` in some case and is followed by at least one digit |
| OcrFigures.FigureAt | research_analyser/ocr_engine.py:327-331 | a caption match starts at the start of the text or at a newline, spans a case-insensitive `fig`, and its group of five to two hundred characters ends the match on one line |
| OcrFigures.CaptionFrom | research_analyser/ocr_engine.py:328 | the same for the pattern after its anchor |
| OcrFigures.FigureMatches | research_analyser/ocr_engine.py:331 | `finditer` gives matches in text order without overlap, each with a one-line group |
| OcrFigures.ConsMatches | research_analyser/ocr_engine.py:331 | a match before later matches keeps the scan's order |
| OcrFigures.NoKeywordNoMatches | research_analyser/ocr_engine.py:327-331 | a text without `fig` in any case yields no caption |
| OcrFigures.CaptionText | research_analyser/ocr_engine.py:332 | stripping spaces and trailing stars never lengthens the caption |
| OcrFigures.CaptionTextOneLine | research_analyser/ocr_engine.py:332 | the caption of a one-line group is at most two hundred characters without a newline |
| OcrFigures.FigureOfMatchFields | research_analyser/ocr_engine.py:333-339 | the figure of a match has id `fig_<n>` and the cleaned caption, at most two hundred characters on one line |
| OcrFigures.NumberFigures | research_analyser/ocr_engine.py:331-339 | the loop makes one figure per match, the k-th numbered k+1 |
| OcrFigures.MatchFigures | research_analyser/ocr_engine.py:331-339 | one figure per match, the k-th numbered k+1, as a value |
| OcrFigures.ExtractFiguresFromMarkdown | research_analyser/ocr_engine.py:323-340 | one figure per caption match, in text order, numbered from one |
| OcrFigures.NumberedFigures | research_analyser/ocr_engine.py:332-339 | numbered figures have ids `fig_<k+1>` and captions of at most two hundred characters without newlines |
| OcrFigures.NumberedIdsDistinct | research_analyser/ocr_engine.py:336 | figures numbered from one have distinct ids |
| OcrFigures.FallbackFigures | research_analyser/ocr_engine.py:323-340 | every fallback figure has id `fig_<k+1>` and a one-line caption of at most two hundred characters; ids are distinct |
| OcrBlocks.GetOr | research_analyser/ocr_engine.py:242-244 | `dict.get(key, default)`: the value when the key is there, the default otherwise |
| OcrBlocks.Kept | research_analyser/ocr_engine.py:236-237 | the blocks of the given kinds never outnumber the blocks |
| OcrBlocks.KeptSnoc | research_analyser/ocr_engine.py:236-237 | one more block adds itself exactly when it is of the kind |
| OcrBlocks.KeptMembers | research_analyser/ocr_engine.py:237 | the kept blocks are exactly the blocks whose `type` is one of the kinds |
| OcrBlocks.KeptEmpty | research_analyser/ocr_engine.py:237 | nothing is kept iff no block is of those kinds |
| OcrBlocks.BlockTables | research_analyser/ocr_engine.py:236-246 | one table per table block, the k-th numbered k+1, with the block's content, caption and section (defaults `""`) |
| OcrBlocks.TablesFromBlocks | research_analyser/ocr_engine.py:233-246 | the block loop of `extract_tables` gives exactly those tables |
| OcrBlocks.BlockTablesSnoc | research_analyser/ocr_engine.py:236-246 | a table block adds one table numbered after the earlier ones; other blocks add nothing |
| OcrBlocks.ExtractTables | research_analyser/ocr_engine.py:227-252 | the block tables when there are any; otherwise the pipe tables of a non-empty markdown text, and none for an empty one |
| OcrBlocks.BlockTablesShape | research_analyser/ocr_engine.py:236-246 | the block path yields tables iff some block is a table block; they are numbered `table_001` on in block order and each comes from a table block |
| OcrBlocks.DocumentTables | research_analyser/ocr_engine.py:227-252 | the tables of a document as a value: block tables, else pipe tables of a non-empty markdown, else none |
| OcrBlocks.TablesOfUnique | research_analyser/ocr_engine.py:227-252 | the blocks and the markdown determine the tables |
| OcrBlocks.BlockFigures | research_analyser/ocr_engine.py:304-315 | one figure per figure block, the k-th numbered k+1, with the block's image path, caption, section (default `""`) and page (default 0) |
| OcrBlocks.FiguresFromBlocks | research_analyser/ocr_engine.py:301-315 | the block loop of `extract_figures` gives exactly those figures |
| OcrBlocks.BlockFiguresSnoc | research_analyser/ocr_engine.py:304-315 | a figure block adds one figure numbered after the earlier ones; other blocks add nothing |
| OcrBlocks.ExtractFigures | research_analyser/ocr_engine.py:295-321 | the block figures when there are any; otherwise the caption figures of a non-empty markdown text, and none for an empty one |
| OcrBlocks.BlockFiguresShape | research_analyser/ocr_engine.py:304-315 | the block path yields figures iff some block is a figure block; they are numbered `fig_001` on in block order and each comes from a figure block |
| OcrBlocks.DocumentFigures | research_analyser/ocr_engine.py:295-321 | the figures of a document as a value: block figures, else caption figures of a non-empty markdown, else none |
| OcrBlocks.FiguresOfUnique | research_analyser/ocr_engine.py:295-321 | the blocks and the markdown determine the figures |
| OcrMetadata.FirstLineTitle | research_analyser/ocr_engine.py:410-412 | the fallback title has no surrounding whitespace |
| OcrMetadata.ExtractTitle | research_analyser/ocr_engine.py:404-413 | the title of the first level-one section, and without one the trimmed first line of the stripped text |
| OcrMetadata.TrimmedLineIsSlice | research_analyser/ocr_engine.py:412 | `line.strip("# ").strip()` is a slice of the line |
| OcrMetadata.FirstLineTitleShape | research_analyser/ocr_engine.py:410-412 | the fallback title is a slice of the first line, holds no newline, and is empty for a blank text |
| OcrMetadata.TitleWithoutSections | research_analyser/ocr_engine.py:404-413 | without a level-one section the fallback is used, so a blank text gets the empty title (the `Untitled` branch is unreachable) |
| OcrMetadata.AuthorLineIndex | research_analyser/ocr_engine.py:419-421 | the line chosen is the first of lines 1 to 4 that, stripped, is non-empty, not a heading and holds a comma |
| OcrMetadata.StripAll | research_analyser/ocr_engine.py:422 | each piece is stripped, one for one |
| OcrMetadata.AuthorsShape | research_analyser/ocr_engine.py:415-423 | authors are found iff one of lines 1 to 4 is an author line; there are then at least two, each stripped and without commas |
| OcrMetadata.ExtractAuthors | research_analyser/ocr_engine.py:415-423 | `_extract_authors` as a definition; AuthorsShape states which lines it takes and what the names look like |
| OcrMetadata.ColonSpaceEnd | research_analyser/ocr_engine.py:432 | the greedy `[:\s]*` stops at the first character that is neither a colon nor whitespace |
| OcrMetadata.NextTerminator | research_analyser/ocr_engine.py:432 | the lazy group stops at the first terminator (blank line, `\n#`, `\n1.`, `\nI.`) |
| OcrMetadata.GroupFrom | research_analyser/ocr_engine.py:432 | the group found is non-empty, is followed by a terminator and contains none |
| OcrMetadata.AbstractMatch | research_analyser/ocr_engine.py:431-435 | a match's group starts after the keyword, is followed by a terminator and contains none |
| OcrMetadata.AbstractMatchFollowsKeyword | research_analyser/ocr_engine.py:432 | the group always follows a whole-word `abstract` and only colons and whitespace |
| OcrMetadata.NoKeywordNoMatch | research_analyser/ocr_engine.py:431-435 | without the whole word `abstract` there is no match |
| OcrMetadata.ExtractAbstract | research_analyser/ocr_engine.py:425-438 | the content of the first section whose title mentions `abstract`; otherwise the stripped group, shorter than the text, or the empty string when nothing matches |
| OcrMetadata.AbstractWithoutKeyword | research_analyser/ocr_engine.py:425-438 | with neither an abstract section nor the word, the abstract is empty |
| OcrReferences.Bracketed | research_analyser/ocr_engine.py:453 | the text of a `[N]` entry is non-empty and on one line |
| OcrReferences.Numbered | research_analyser/ocr_engine.py:454 | the text of an `N.` entry is non-empty and on one line |
| OcrReferences.NameEnd | research_analyser/ocr_engine.py:456 | the run of name characters is maximal |
| OcrReferences.EntryText | research_analyser/ocr_engine.py:475-481 | an entry line always contributes a non-empty text |
| OcrReferences.Classify | research_analyser/ocr_engine.py:458-481 | a stripped line is blank iff empty; a references heading, top-level heading or entry only when the matching pattern holds, tried in the source's order; a line that passes no heading test but yields an entry is that entry |
| OcrReferences.TopEntryFree | research_analyser/ocr_engine.py:454-472 | a top-level heading matches none of the entry forms |
| OcrReferences.Kinds | research_analyser/ocr_engine.py:458 | one kind per line |
| OcrReferences.KindsAt | research_analyser/ocr_engine.py:458-459 | the kind of each line is that of its stripped text |
| OcrReferences.AsReferences | research_analyser/ocr_engine.py:477-481 | one reference per text, carrying that text |
| OcrReferences.KindOf | research_analyser/ocr_engine.py:459-481 | the `if` chain of the loop body classifies each line as the kind function does |
| OcrReferences.ScanStep | research_analyser/ocr_engine.py:458-481 | blank lines are skipped, a references heading opens the section, lines before it are ignored, a top-level heading ends the scan once a reference was read, an entry is appended and counted, and other lines are passed over |
| OcrReferences.EntryStep | research_analyser/ocr_engine.py:476-481 | reading an entry moves its text to the texts read so far |
| OcrReferences.AsReferencesSnoc | research_analyser/ocr_engine.py:477-481 | appending a text appends the reference numbered one past the last |
| OcrReferences.ExtractReferences | research_analyser/ocr_engine.py:440-483 | the loop returns the references numbered from one of exactly the texts the scan reads |
| OcrReferences.Scan | research_analyser/ocr_engine.py:448-483 | the scan of the classified lines as a definition; ScanStep, NothingBeforeHeading, TopHeadingStops and NoHeadingNoReferences state its steps, and ExtractReferences is proved against it |
| OcrReferences.NothingBeforeHeading | research_analyser/ocr_engine.py:464-469 | no line before the first references heading is read |
| OcrReferences.NoHeadingNoReferences | research_analyser/ocr_engine.py:440-483 | a text without a references heading has no references |
| OcrReferences.TopHeadingStops | research_analyser/ocr_engine.py:472-473 | inside the section a top-level heading ends the scan once a reference was read and is passed over before that |
| OcrReferences.EntryRead | research_analyser/ocr_engine.py:475-481 | inside the section an entry line becomes the next reference: bracketed form first, then numbered, then author-year |
| OcrReferences.ReferenceIds | research_analyser/ocr_engine.py:478-481 | reference ids run `ref_001`, `ref_002`, … without a gap and differ pairwise |
| OcrReferences.ReferenceIdsNumbered | research_analyser/ocr_engine.py:478-481 | the k-th reference has id `ref_<k+1>` |
| OcrReferences.ReferenceIdsDiffer | research_analyser/ocr_engine.py:478-481 | reference ids differ pairwise |
| OcrDocument.Override | research_analyser/ocr_engine.py:131-136 | a sidecar value replaces the heuristic one exactly when it is present and non-empty |
| OcrDocument.FrontMatter | research_analyser/ocr_engine.py:122-136 | title, authors and abstract come from the heuristics, each replaced by a present, non-empty sidecar value |
| OcrDocument.Extract | research_analyser/ocr_engine.py:104-157 | the record holds the full text, the parsed sections, the merged equations, the block-or-pipe tables and figures, the references, the front matter with sidecar overrides, and metadata whose counts are those of the lists; it is the record of the Document definition |
| OcrDocument.Document | research_analyser/ocr_engine.py:104-157 | the record `extract` builds from what the OCR run left, as a definition; Extract is proved to return it |
| OcrDocument.Extraction | research_analyser/ocr_engine.py:55-102 | `extract` succeeds exactly when the OCR run left its output, and then holds the markdown and names the PDF path and the model; otherwise an `ExtractionError`: the fixed not-installed message, or `Failed to load MonkeyOCR model: ` or `MonkeyOCR extraction failed: ` followed by the exception's message |
| OcrDocument.ExtractPdf | research_analyser/ocr_engine.py:72-157 | the method gives the error of the load or the run, or runs the post-processing, as the definition says |
| Reviewer.ComputeFinalScore | research_analyser/reviewer.py:44-65 | the overall score always lies in [1, 10]: it is the linear formula -0.3057 + 0.7134·S + 0.4242·P + 1.0588·C when that lies in [1, 10], 1 below and 10 above |
| Reviewer.RubricRangeUnclamped | research_analyser/reviewer.py:49-65 | for dimension scores on the documented 1-4 scale the formula stays within [1.8907, 8.4799], so the clamp never fires |
| Reviewer.ScoreExamples | research_analyser/reviewer.py:59-65 | worked values: (3, 3, 3) gives 6.2835, (0, 0, 0) is clamped to 1.0, (4, 4, 4) gives 8.4799 |
| Reviewer.DimensionDeltas | research_analyser/reviewer.py:19-22 | within the rubric range, one more point on a dimension adds exactly that dimension's weight; contribution weighs most and presentation least |
| Reviewer.Monotone | research_analyser/reviewer.py:59-65 | the clamped score never decreases when any dimension score increases |
| Reviewer.FirstBand | research_analyser/reviewer.py:38-40 | the scan over `SCORE_LABELS` finds nothing exactly when no band holds the score, and otherwise returns the label of the first band whose half-open range holds it |
| Reviewer.ScoreLabelsAscending | research_analyser/reviewer.py:25-33 | the seven bands follow one another without gaps or overlap |
| Reviewer.InterpretScore | research_analyser/reviewer.py:36-41 | the decision is the label of the band that holds the score; from 8 up (10 included) it is "Strong Accept"; it is "Unknown" exactly when the score is below 1 |
| Reviewer.FirstBandOfAscending | research_analyser/reviewer.py:38-40 | in bands that do not overlap, the band found first is the band that holds the score |
| Reviewer.FirstBandIsBand | research_analyser/reviewer.py:25-40 | for `SCORE_LABELS`, the scan returns the label of whichever band holds the score |
| Reviewer.FirstBandKnown | research_analyser/reviewer.py:25-41 | the scan finds no band exactly when the score is below 1 or at least 10; it never answers "Unknown"; on [8, 10) it answers "Strong Accept" |
| Reviewer.InterpretScoreDecisions | research_analyser/reviewer.py:36-41 | every answer is one of the seven labels or "Unknown" |
| Reviewer.BoundariesGoUp | research_analyser/reviewer.py:25-41 | a boundary score belongs to the higher band (3 is Reject … 8 is Strong Accept); 10 is Strong Accept and 1 is Strong Reject |
| Reviewer.ComputedScoreHasDecision | research_analyser/reviewer.py:36-65 | a score produced by `compute_final_score` never gets the decision "Unknown" |
| Reviewer.ParseScoresValues | research_analyser/reviewer.py:221-233 | the parsed scores always hold all three keys: the three numbers when the first three comma-separated parts parse, and 2.5 for all three otherwise (never a partial default) |
| Reviewer.ParseScores | research_analyser/reviewer.py:221-233 | the scoring node's parse as a definition; ParseScoresValues states the three keys and the all-or-nothing default |
| Reviewer.ExtraPartsIgnored | research_analyser/reviewer.py:222-227 | replies that agree on their first three parts give the same scores |
| Reviewer.NonBlankLines | research_analyser/reviewer.py:146-148 | the kept lines are never more than the lines of the reply |
| Reviewer.NonBlankLinesClean | research_analyser/reviewer.py:146-148 | every kept line is non-empty and stripped, and no line is dropped when none is blank |
| Reviewer.ChainVisitsEachNodeOnce | research_analyser/reviewer.py:251-267 | the built graph is one chain of seven distinct nodes that contains every node |
| Reviewer.Entries | research_analyser/reviewer.py:163-168 | one entry per search hit, in order, each key taken from the hit or "" when absent |
| Reviewer.CollectedWorks | research_analyser/reviewer.py:151-173 | without an API key (absent or empty) no work is collected |
| Reviewer.RaisedSearchEndsCollection | research_analyser/reviewer.py:155-170 | a search that raises ends the loop: nothing from it or from later searches is kept, and what came before is |
| Reviewer.FirstThreeQueriesOnly | research_analyser/reviewer.py:159 | only the searches of the first three queries matter |
| Reviewer.FirstSearchFirst | research_analyser/reviewer.py:159-168 | with a key, the hits of the first query's search come first, in order |
| Reviewer.Step | research_analyser/reviewer.py:128-248 | no node changes the paper text or the venue |
| Reviewer.ChainHead | research_analyser/reviewer.py:128-173 | the first three nodes set the stripped title, the non-blank query lines and the works found for those queries, and nothing else |
| Reviewer.ChainMiddle | research_analyser/reviewer.py:175-209 | the strength and weakness nodes set their two lists and nothing else |
| Reviewer.RunPrefixStep | research_analyser/reviewer.py:260-267 | running one more node of the chain applies that node's step to the state reached so far |
| Reviewer.ChainTail | research_analyser/reviewer.py:211-248 | the scoring and composition nodes set the scores and the review text and nothing else |
| Reviewer.ChainResult | research_analyser/reviewer.py:251-267 | a run of the whole chain yields the state in which every field holds its writer's result: no later node undoes an earlier write, and the search saw the generated queries |
| Reviewer.ReviewState.constructor | research_analyser/reviewer.py:287-299 | the initial state holds the paper text, the venue or "", the title and empty lists, text and scores |
| Reviewer.ReviewState.RunNode | research_analyser/reviewer.py:128-248 | a node fails exactly when it calls the model and the call raised; a failing node leaves the state unchanged and reports the message; otherwise the state becomes the node's step |
| Reviewer.ReviewState.SearchWorks | research_analyser/reviewer.py:151-173 | the search loop collects exactly the works the specification of the search node names |
| Reviewer.FirstRaised | research_analyser/reviewer.py:301 | the position of the first failing node is within the chain, and a position before the end names a node whose call raised |
| Reviewer.RepliedBeforeFirstRaised | research_analyser/reviewer.py:301 | every node before the first failing one replied |
| Reviewer.FirstRaisedReachesEnd | research_analyser/reviewer.py:301 | the run reaches the end of the chain exactly when no node's call raised |
| Reviewer.MissingPackages | research_analyser/reviewer.py:272-276 | the error message starts with "Required packages not installed: " |
| Reviewer.PaperReviewer.constructor | research_analyser/reviewer.py:84-95 | a new reviewer has no workflow built |
| Reviewer.PaperReviewer.BuildWorkflow | research_analyser/reviewer.py:97-100 | building is a no-op once built; otherwise it succeeds exactly when the graph libraries import, and a failed import becomes a ReviewError with the missing-packages message |
| Reviewer.PaperReviewer.RunWorkflow | research_analyser/reviewer.py:301 | the nodes run in chain order up to and including the first one that raised; with no failure the state is that of the whole chain |
| Reviewer.PaperReviewer.Review | research_analyser/reviewer.py:278-284 | a failed import is raised as it is, outside the generation error; otherwise the result is the outcome of the workflow run |
| Reviewer.PaperReviewer.Invoke | research_analyser/reviewer.py:286-353 | the run's result is the workflow outcome: the review, or the generation error |
| Reviewer.ReviewOutcome | research_analyser/reviewer.py:286-353 | the review is produced exactly when no node raised; otherwise the error is "Review generation failed: " with the message of a node whose call raised |
| Reviewer.ReviewFromReplies | research_analyser/reviewer.py:278-353 | `review` as a definition of the language-model replies; ReviewOutcome states when it succeeds and what it fails with |
| Reviewer.GenerationFailed | research_analyser/reviewer.py:352-353 | the message starts with "Review generation failed: " and ends with the original message |
| Reviewer.ScoreOr | research_analyser/reviewer.py:304-306 | `scores.get(key, 2.5)`: the stored score when present, 2.5 otherwise |
| Reviewer.RelatedWorks | research_analyser/reviewer.py:331-339 | one related work per collected entry, in order, with no authors, the URL and the content as summary |
| Reviewer.AssembleReview | research_analyser/reviewer.py:303-350 | three dimensions with their names, scores as given (not clamped), constant weights and justifications; the overall score is the clamped formula on them and lies in [1, 10]; confidence 3, no suggestions, the lists and text passed through |
| Reviewer.AssembledScoresComeFromScoring | research_analyser/reviewer.py:221-233 | after the scoring node the per-key default is never used, and the decision of the resulting overall score is never "Unknown" |
| DiagramGenerator.MatchingContents | research_analyser/diagram_generator.py:392-396 | the contents of the sections whose lower-cased title holds a keyword never outnumber the sections |
| DiagramGenerator.Context | research_analyser/diagram_generator.py:172-204 | the context is the joined matching section contents, else the abstract, else a prefix of at most 2000 characters of the full text |
| DiagramGenerator.ContextWithoutSections | research_analyser/diagram_generator.py:172-174 | with no matching section title, the context is the abstract or the first 2000 characters of the full text |
| DiagramGenerator.NoMatchingContents | research_analyser/diagram_generator.py:392-397 | no matching title means no matching content |
| DiagramGenerator.OutputDir | research_analyser/diagram_generator.py:55 | the output directory is the given one, or `./output/diagrams` when none is given, parsed as `Path` parses it (its properties are stated by DefaultImagePath and ImagePathInOutputDir) |
| DiagramGenerator.ImagePath | research_analyser/diagram_generator.py:225 | `self.output_dir / f"{diagram_type}.{self.output_format}"` printed as `str` prints it; its properties are stated by the four lemmas below |
| DiagramGenerator.ImageFileParts | research_analyser/diagram_generator.py:225 | the file name of a known type parses to the type with a dot and the format's first `/`-piece, followed by the remaining parts of the format |
| DiagramGenerator.ImagePathInOutputDir | research_analyser/diagram_generator.py:55-225 | for a format without `/`, the image path parses back to the output directory with exactly one more part, `<type>.<format>` |
| DiagramGenerator.ImagePathsDistinct | research_analyser/diagram_generator.py:225 | distinct known diagram types never share an image path, whatever the directory and the format |
| DiagramGenerator.DefaultImagePath | research_analyser/diagram_generator.py:55-225 | with no directory given and the format `png`, the methodology image is at `output/diagrams/methodology.png` (`pathlib` drops the leading `./`) |
| DiagramGenerator.RunPipeline | research_analyser/diagram_generator.py:216-276 | every record is at the standard path with its type and the output format, keeps a prefix of at most 500 characters of the context and at least one iteration; it is a fallback iff the service did not produce an existing file, and a fallback has one iteration, an error and the `overview (local fallback)` caption; a service error's message is kept, and a missing file's error names the service's path as `Path` prints it |
| DiagramGenerator.RunOne | research_analyser/diagram_generator.py:132-152 | `_run_one` for one type: skipped when unknown, otherwise the record of the pipeline on the type's context, or the exception of a failing local drawing; stated by Outcomes, FanInOrder and Surviving |
| DiagramGenerator.DeriveFallbackStages | research_analyser/diagram_generator.py:358-376 | five stages, first `Paper Input` and last `Outputs & Analysis`, the middle three chosen by the terms the lower-cased context holds, the third by an if/elif/else |
| DiagramGenerator.StageDetail | research_analyser/diagram_generator.py:378-390 | a label outside the nine known stages gets `analysis stage`, and every known one gets its own detail |
| DiagramGenerator.FinalStatus | research_analyser/diagram_generator.py:144-150 | each run ends with one of `Done`, `Done (fallback)`, `Unknown type` or `Failed` |
| DiagramGenerator.Outcomes | research_analyser/diagram_generator.py:158-161 | one outcome per requested type, each that of running that type |
| DiagramGenerator.Kept | research_analyser/diagram_generator.py:162-167 | the fan-in never returns more records than there were outcomes |
| DiagramGenerator.QueuedReports | research_analyser/diagram_generator.py:155-156 | every requested type is reported `Queued` first, in order |
| DiagramGenerator.RunReports | research_analyser/diagram_generator.py:132-150 | each run reports exactly twice |
| DiagramGenerator.Generate | research_analyser/diagram_generator.py:106-168 | the records returned are those of the outcomes, in request order, and the reports are all the `Queued` ones followed by each run's two reports; no types means methodology only |
| DiagramGenerator.RunAll | research_analyser/diagram_generator.py:158-161 | the runs give each type's outcome, with its reports |
| DiagramGenerator.FanIn | research_analyser/diagram_generator.py:162-167 | the loop over the gathered results keeps exactly the records, skipping exceptions and `None` |
| DiagramGenerator.Surviving | research_analyser/diagram_generator.py:135-152 | the types that yield a record are some of the requested ones |
| DiagramGenerator.TypesOf | research_analyser/diagram_generator.py:146-148 | one type per record |
| DiagramGenerator.FanInOrder | research_analyser/diagram_generator.py:132-168 | the returned records are, in request order, those of the known types whose run did not raise; unknown types never appear |
| DiagramGenerator.ReportsShape | research_analyser/diagram_generator.py:132-150 | each type is reported `Generating` and then with exactly one final status |
| Analyser.FirstTitled | research_analyser/analyser.py:178-183 | the section found is the first whose lower-cased title holds a keyword; none found means no title holds one |
| Analyser.SummaryChoice | research_analyser/analyser.py:176-207 | a summary is at most 500 characters and opens the first section whose title has a keyword, or, when no title has one, the fallback text |
| Analyser.SummaryOf | research_analyser/analyser.py:176-207 | the three summary extractors as one definition; SummaryChoice states which text it gives |
| Analyser.SummaryFallbacks | research_analyser/analyser.py:176-207 | without a matching section, the methodology summary and the conclusions fall back to the abstract and the results summary to the full text, each cut at 500 characters |
| Analyser.NoTitleFound | research_analyser/analyser.py:178-183 | when no title from a position on has a keyword, nothing is found |
| Analyser.Strengths | research_analyser/analyser.py:225-226 | at most three strengths are taken from a review |
| Analyser.StrengthPoints | research_analyser/analyser.py:226-234 | one high-importance point per strength, in order |
| Analyser.ExtractKeyPoints | research_analyser/analyser.py:209-248 | the method builds the key points of the definition: abstract point, strength points, equation point |
| Analyser.AppendStrengths | research_analyser/analyser.py:226-234 | the loop appends exactly the strength points |
| Analyser.KeyPointsCount | research_analyser/analyser.py:209-248 | at most five key points: one iff there is an abstract, the review's first three strengths, and one iff there are display equations |
| Analyser.KeyPointsOrder | research_analyser/analyser.py:213-246 | the abstract point first with the first 200 characters of the abstract, the strengths next in order, the equation point last quoting the first 100 characters of the first display equation |
| Analyser.KeyPointsImportance | research_analyser/analyser.py:220-244 | a point is of medium importance iff it is the equation point, which is last |
| Analyser.Tasks | research_analyser/analyser.py:116-124 | a diagram task is launched iff diagrams are asked for, and first; a review task iff a review is asked for |
| Analyser.ClassifiedShort | research_analyser/analyser.py:130-136 | the classification of one or two results is the loop's steps on them |
| Analyser.Classify | research_analyser/analyser.py:128-136 | the loop over the gathered results gives the classification of the definition |
| Analyser.ClassifiedLast | research_analyser/analyser.py:128-136 | the diagrams are those of the last list result, `[]` if none; the review is the last other value, and absent iff there is none |
| Analyser.LastDiagrams | research_analyser/analyser.py:133-134 | the diagrams are those of the last list result, or `[]` when there is none |
| Analyser.NoReview | research_analyser/analyser.py:135-136 | there is no review iff no result is a non-list value |
| Analyser.LastReview | research_analyser/analyser.py:135-136 | a review is that of the last non-list value |
| Analyser.FailuresDropped | research_analyser/analyser.py:131-132 | an exception anywhere among the results changes nothing |
| Analyser.Gather | research_analyser/analyser.py:126 | one result per task, in task order |
| Analyser.DiagramSettings | research_analyser/analyser.py:51-60 | the generator writes under `str(Path(output_dir) / "diagrams")` in the configured format |
| Analyser.ReviewResult | research_analyser/reviewer.py:97-284 | a review raises the ImportError's ReviewError whenever the graph libraries are missing, and otherwise gives the workflow's outcome |
| Analyser.DiagramsGathered | research_analyser/analyser.py:117-119 | the diagram task always returns the list of records `generate` kept, in request order |
| Analyser.ReviewGathered | research_analyser/analyser.py:121-123 | the review task returns the review or raises the reviewer's error |
| Analyser.Run | research_analyser/analyser.py:116-126 | a task's gathered result is that of the diagram generator or of the reviewer |
| Analyser.RunDiagrams | research_analyser/analyser.py:117-119 | running `generate` gives the diagram task's result |
| Analyser.RunReview | research_analyser/analyser.py:121-123 | running a reviewer's `review` on the paper with no venue gives the review task's result |
| Analyser.GatherTasks | research_analyser/analyser.py:115-126 | the results of the tasks asked for, in request order, are the gathered results |
| Analyser.ClassifiedPair | research_analyser/analyser.py:128-136 | classifying a list result, a non-list result, both or neither leaves the list as the diagrams and a review value as the review |
| Analyser.OutcomesLand | research_analyser/analyser.py:116-136 | the diagrams are the records the generator kept, in request order, whenever diagrams are asked for, else `[]`; the review is the reviewer's when asked for and it did not raise, else none |
| Analyser.Analyse | research_analyser/analyser.py:70-167 | the first three stages and the assembly give the report of the definition, or the failing stage's error |
| Analyser.Assemble | research_analyser/analyser.py:115-167 | running the generator and the reviewer, classifying, summary, key points and metadata form the report of the definition |
| Analyser.PipelineReport | research_analyser/analyser.py:70-167 | a report says `Analysis of '<title>'`, holds the generator's kept records when diagrams are asked for, the reviewer's review when asked for and it did not raise, and at most five key points |
| Analyser.Pipeline | research_analyser/analyser.py:70-167 | `analyse` as a definition: the first three stages, then the report; PipelineStages and PipelineReport state it and Analyse is proved against it |
| Analyser.Extracted | research_analyser/analyser.py:88-107 | detection, resolution and the OCR engine's `extract` as a definition; ExtractedStages states it |
| Analyser.Extract | research_analyser/analyser.py:88-107 | the method detects, resolves and extracts as the definition says |
| Analyser.ExtractedStages | research_analyser/analyser.py:88-107 | the first three stages fail exactly when detection, resolution or the OCR run fails; otherwise the input carries the source and its explicit or detected type, and the content is the record built from the OCR output for the resolved path, with that path as its source file |
| Analyser.PipelineStages | research_analyser/analyser.py:70-167 | `analyse` fails exactly when one of the first three stages fails, and a report holds their input and content |
| InputHandler.IdEnd | research_analyser/input_handler.py:24-26 | the greedy match of the id pattern `\d{4}\.\d{4,5}(?:v\d+)?` at a position, when there is one, is at least nine characters long and lies within the text |
| InputHandler.IdEndIsId | research_analyser/input_handler.py:24-26 | what the greedy id match captures is always a well-formed arXiv id |
| InputHandler.IdAtEnd | research_analyser/input_handler.py:24-26 | an id that runs to the end of the text is matched in full (the version is not cut short) |
| InputHandler.DigitRunToEnd | research_analyser/input_handler.py:24-26 | a run of digits reaching the end of the text is consumed entirely by `\d+` |
| InputHandler.SearchId | research_analyser/input_handler.py:24-25 | `pattern.search` of a URL pattern captures only well-formed ids |
| InputHandler.BareId | research_analyser/input_handler.py:26 | the anchored pattern captures only ids, and a string that is itself an id matches with the whole string captured |
| InputHandler.ArxivMatch | research_analyser/input_handler.py:23-27 | trying the three patterns in order only ever captures a well-formed id |
| InputHandler.ExtractArxivId | research_analyser/input_handler.py:81-87 | extraction yields a well-formed id, and fails with `Cannot extract arXiv ID from: <source>` exactly when no pattern matches |
| InputHandler.ExtractBareId | research_analyser/input_handler.py:81-87 | a bare id is extracted unchanged, so extraction is idempotent on its results |
| InputHandler.NoPrefixInId | research_analyser/input_handler.py:24-25 | no URL prefix can be found inside an id, since ids hold only digits, `.` and `v` |
| InputHandler.IdCharacters | research_analyser/input_handler.py:24-26 | every character of an id is a digit, the dot or `v` |
| InputHandler.IsArxivId | research_analyser/input_handler.py:24-26 | the group `\d{4}\.\d{4,5}(?:v\d+)?` of the three arXiv patterns; IdEndIsId and BareId show that the matcher captures exactly such ids |
| InputHandler.IsDoi | research_analyser/input_handler.py:29 | `DOI_PATTERN`: `10.`, at least four digits, `/`, then at least one character and no whitespace; DetectSourceType uses it |
| InputHandler.IsPdfPath | research_analyser/input_handler.py:42 | the lower-cased `pathlib` suffix is `.pdf`; DetectSourceType and ResolveLocal use it |
| InputHandler.PathName | research_analyser/input_handler.py:41-42 | `Path(p).name`: the last part `pathlib` keeps, empty or a proper part (non-empty, not `.`, no `/`) |
| InputHandler.TrailingPartsIgnored | research_analyser/input_handler.py:41-42 | a trailing `/` or `/.` changes neither the name nor whether the path has a `.pdf` suffix (`Path("a.pdf/.").suffix` is `.pdf`) |
| InputHandler.LastIndexOf | research_analyser/input_handler.py:42 | the index found is that of the last occurrence of the character, and none means it does not occur |
| InputHandler.Suffix | research_analyser/input_handler.py:42 | `Path(p).suffix`: empty, or the name's last dot and what follows, holding no other dot and no `/` |
| InputHandler.DetectSourceType | research_analyser/input_handler.py:39-55 | each source type is chosen exactly when its test holds and every earlier test failed (existing `.pdf` path, then arXiv pattern, then DOI, then `http://`/`https://`), and otherwise the error `Cannot determine source type for: <source>` |
| InputHandler.DetectedArxivExtracts | research_analyser/input_handler.py:45-47 | whatever is detected as arXiv has an extractable id, so `resolve` never fails at the extraction step for it |
| InputHandler.BareIdDetected | research_analyser/input_handler.py:39-55 | a bare id that does not name a local PDF is detected as arXiv and extracts to itself |
| InputHandler.ResolveLocal | research_analyser/input_handler.py:72-79 | a local path is accepted exactly when it exists and has a `.pdf` suffix in any case, and the result is `Path(path)` as it prints; otherwise the `File not found` or `Not a PDF file` error with the path as given, in that order of checks |
| InputHandler.DefaultFilename | research_analyser/input_handler.py:178-181 | the default download name is a single path component ending in `.pdf` |
| InputHandler.DefaultFilenameOfPdfUrl | research_analyser/input_handler.py:178-181 | when the URL's last segment already ends in `.pdf`, it is the name, without a second `.pdf` |
| InputHandler.DerivedFilenames | research_analyser/input_handler.py:93 | the arXiv name `arxiv_<id>.pdf` and the DOI name `doi_<doi with / as _>.pdf` are single path components ending in `.pdf` |
| InputHandler.FetchUrl | research_analyser/input_handler.py:174-204 | the retry loop writes to `temp_dir / filename` and returns exactly the outcome of the attempt-by-attempt definition, makes no attempt when `max_retries` is not positive, at most `max_retries` otherwise, only client errors lead to another attempt, and any other exception (a timeout, an OS error) ends it unchanged |
| InputHandler.FetchFrom | research_analyser/input_handler.py:185-204 | the attempts of `fetch_url` from one attempt on, as a definition; stated by FetchSucceeds, BadStatusNotRetried, EscapedNotRetried, RetriesExhausted and NoTrailingRaise |
| InputHandler.FetchSucceeds | research_analyser/input_handler.py:185-202 | a download succeeds iff some attempt within the bound answers 200 after nothing but client errors, and it then returns the output path |
| InputHandler.TrailingRaiseOnlyWithoutAttempts | research_analyser/input_handler.py:185-204 | the final `Failed to fetch <url>` is raised iff `max_retries` is not positive |
| InputHandler.NoTrailingRaise | research_analyser/input_handler.py:185-204 | from any attempt within the bound the loop ends by returning or by one of the two raises inside it |
| InputHandler.BadStatusNotRetried | research_analyser/input_handler.py:189-192 | a status other than 200 fails the download at once with `HTTP <status> fetching <url>`, without retrying |
| InputHandler.EscapedNotRetried | research_analyser/input_handler.py:185-199 | an exception other than a client error (a timeout, an OS error) after nothing but client errors propagates unchanged, without a retry |
| InputHandler.RetriesExhausted | research_analyser/input_handler.py:199-201 | after `max_retries` client errors the download fails naming the count and the last error |
| InputHandler.ReachAttempt | research_analyser/input_handler.py:199-202 | client errors before an attempt only hand the download on to that attempt |
| InputHandler.Resolve | research_analyser/input_handler.py:57-70 | a local file is checked; a URL is downloaded to `temp_dir /` its default name with three tries; an arXiv source is extracted then fetched from `https://arxiv.org/pdf/<id>.pdf` to `temp_dir / arxiv_<id>.pdf`; a DOI is saved directly to `temp_dir / doi_<doi>.pdf`, followed to its PDF link, or fails with `Could not resolve DOI to PDF` |
| InputHandler.Resolved | research_analyser/input_handler.py:57-70 | `resolve` as a definition of its inputs and the services' outcomes, with every download path built by `pathlib`'s `/`; the Resolve method returns it |
| InputHandler.OutputPath | research_analyser/input_handler.py:183 | `self.temp_dir / filename` as it prints; OutputPathInTempDir states where it lands |
| InputHandler.OutputPathInTempDir | research_analyser/input_handler.py:183 | a download named by one `.pdf` part prints to a path that parses back to the temporary directory with that part appended |
| InputHandler.DownloadsInTempDir | research_analyser/input_handler.py:89-219 | the URL default name, `arxiv_<id>.pdf` and `doi_<doi>.pdf` all land directly inside the temporary directory |
| InputHandler.DefaultTempDir | research_analyser/config.py:63 | the configured default `./tmp` is the relative path with the one part `tmp` |
| InputHandler.DefaultTempPath | research_analyser/config.py:63 | under the default `./tmp` a download prints as `tmp/<name>` |
| InputHandler.SearchSkips | research_analyser/input_handler.py:46 | positions where the prefix does not occur are skipped by the leftmost search |
| InputHandler.NoMatchAt | research_analyser/input_handler.py:46 | a position whose character differs from the prefix's first is not a match |
| InputHandler.ExtractFromAbsUrl | research_analyser/input_handler.py:24-86 | an `arxiv.org/abs/<id>` URL yields its id |
| InputHandler.ExtractFromPdfUrl | research_analyser/input_handler.py:25-86 | an `arxiv.org/pdf/<id>` URL yields its id (the abs pattern finds nothing in it) |
| InputHandler.NoAbsInPdfUrl | research_analyser/input_handler.py:24-25 | the abs prefix occurs nowhere in a pdf URL with such a host |
| InputHandler.ExtractFromUrlExamples | research_analyser/input_handler.py:81-87 | `https://arxiv.org/abs/2401.12345` gives `2401.12345` and `https://arxiv.org/pdf/2401.12345v2` gives `2401.12345v2` |
| StormReporter.SectionChunks | research_analyser/storm_reporter.py:101-110 | at most one chunk per section |
| StormReporter.EquationLines | research_analyser/storm_reporter.py:113-117 | at most one line per equation |
| StormReporter.ReferenceTexts | research_analyser/storm_reporter.py:128 | the texts of the references, one for one |
| StormReporter.BuildChunks | research_analyser/storm_reporter.py:87-138 | the method builds the chunks of the definition: abstract, non-blank sections, equations, references, in that order |
| StormReporter.PaperChunks | research_analyser/storm_reporter.py:87-138 | `_build_chunks` as a definition; BuildChunks is proved against it and ChunkUrls, SectionChunksShape and SnippetBounds state its shape |
| StormReporter.NonBlank | research_analyser/storm_reporter.py:102-103 | the non-blank sections are some of the sections |
| StormReporter.SectionChunksShape | research_analyser/storm_reporter.py:101-110 | section chunks are exactly the non-blank sections in order, each described by its title, at its section URL, with one snippet of at most 2000 characters that opens its stripped body |
| StormReporter.BlankSectionExcluded | research_analyser/storm_reporter.py:102-103 | a section with blank content adds no chunk |
| StormReporter.ChunkUrls | research_analyser/storm_reporter.py:90-132 | every chunk's URL lies under `paper://<title with - for spaces, lower-cased>/` |
| StormReporter.FixedUrlsUnderBase | research_analyser/storm_reporter.py:95-132 | the abstract, equations and references URLs lie under the base |
| StormReporter.SectionUrlsUnderBase | research_analyser/storm_reporter.py:106 | section URLs lie under the base |
| StormReporter.SnippetBounds | research_analyser/storm_reporter.py:113-135 | at most one equation chunk, whose one snippet joins at most 15 lines of described display equations; at most one reference chunk, with the first min(n, 10) reference texts |
| StormReporter.EquationLinesFrom | research_analyser/storm_reporter.py:113-117 | each equation line is `<label or id>: <description>` of a display equation with a description |
| StormReporter.Score | research_analyser/storm_reporter.py:63-68 | a score never exceeds the number of query words |
| StormReporter.ScoreExtremes | research_analyser/storm_reporter.py:63-68 | a chunk scores every word iff it matches them all, and zero iff it matches none |
| StormReporter.Candidates | research_analyser/storm_reporter.py:59-69 | the candidates are corpus chunks whose URL is not yet seen, each with its score |
| StormReporter.Insert | research_analyser/storm_reporter.py:70 | insertion keeps every element and adds the new one |
| StormReporter.SortByScore | research_analyser/storm_reporter.py:70 | the sort is a permutation |
| StormReporter.InsertDescending | research_analyser/storm_reporter.py:70 | insertion keeps scores descending |
| StormReporter.InsertStable | research_analyser/storm_reporter.py:70 | insertion keeps the inserted element ahead of later elements of the same score |
| StormReporter.SortByScoreCorrect | research_analyser/storm_reporter.py:70 | the sort orders by descending score, keeps every element, and keeps the original order among equal scores (Python's sort is stable) |
| StormReporter.SortDescending | research_analyser/storm_reporter.py:70 | the sorted scores descend |
| StormReporter.SortStable | research_analyser/storm_reporter.py:70 | elements of each score keep their order |
| StormReporter.ScoreCandidates | research_analyser/storm_reporter.py:59-69 | the scoring loop gives exactly the candidates |
| StormReporter.AdmitTop | research_analyser/storm_reporter.py:71-80 | the admission loop adds the selected chunks whose URL is unseen, in order, and marks them seen |
| StormReporter.Forward | research_analyser/storm_reporter.py:46-82 | `forward` returns the results of the definition over all queries |
| StormReporter.TopKShape | research_analyser/storm_reporter.py:70-71 | a query selects at most k chunks, from the corpus and unseen, a prefix of the sorted candidates, and no unselected candidate scores more than a selected one |
| StormReporter.TopK | research_analyser/storm_reporter.py:56-71 | the chunks one query adds, as a definition; TopKShape states the selection |
| StormReporter.AdmitConsistent | research_analyser/storm_reporter.py:71-80 | admission keeps the seen set equal to the excluded URLs plus the results' URLs, with distinct result URLs from the corpus |
| StormReporter.AdmitAppends | research_analyser/storm_reporter.py:71-80 | admission only appends, at most one result per selected chunk, and at least one when the first selected URL is unseen |
| StormReporter.RunQueriesConsistent | research_analyser/storm_reporter.py:57-80 | every query keeps that invariant |
| StormReporter.RunQueriesBound | research_analyser/storm_reporter.py:57-80 | the queries add at most k results each |
| StormReporter.RetrieveProperties | research_analyser/storm_reporter.py:46-82 | results never repeat a URL, never hold an excluded URL, come from the corpus, and number at most k per query when k is not negative |
| StormReporter.Retrieve | research_analyser/storm_reporter.py:46-82 | `forward` as a definition; RetrieveProperties states its results and Forward is proved against it |
| StormReporter.QueryProgress | research_analyser/storm_reporter.py:59-80 | with k ≥ 1, a query adds a result whenever some corpus chunk's URL is unseen (zero scores are still ranked) |
| StormReporter.SingleQuery | research_analyser/storm_reporter.py:48-52 | a plain string is one query, returning between 1 and k results when some chunk is not excluded |
| StormReporter.CandidateOf | research_analyser/storm_reporter.py:60-69 | every unseen corpus chunk is a candidate with its score |
| Paths.Components | research_analyser/report_generator.py:22 | the parts `Path` keeps are non-empty, not `.`, and come from the pieces between separators |
| Paths.ComponentsKeep | research_analyser/report_generator.py:22 | pieces that are all proper parts are kept as they are |
| Paths.ParseNormal | research_analyser/report_generator.py:22 | a parsed path is normal |
| Paths.SplitFirst | research_analyser/report_generator.py:22 | splitting at the first separator gives the first piece then the split of the rest |
| Paths.SplitNone | research_analyser/report_generator.py:22 | a text without a separator is one piece |
| Paths.ComponentsOfJoin | research_analyser/report_generator.py:35-37 | the parts of a joined normal sequence come back from a parse |
| Paths.ParseRender | research_analyser/report_generator.py:27-37 | rendering a normal path and parsing it again gives it back |
| Paths.JoinHead | research_analyser/report_generator.py:35 | a join starts with its first part |
| Paths.RenderInjective | research_analyser/report_generator.py:37 | two normal paths print the same exactly when they are the same path |
| Paths.SlashNormal | research_analyser/diagram_generator.py:225 | `/` of two normal paths is normal |
| Paths.SplitPrefix | research_analyser/diagram_generator.py:225 | a separator-free text put before another joins the first piece of its split |
| Paths.ParseComponent | research_analyser/input_handler.py:183 | a single proper part parses to the relative path of that one part |
| Paths.AppendPart | research_analyser/input_handler.py:183 | `/` with a single proper part appends it to the directory's parts, and the printed result parses back to that path |
| ReportGenerator.AssetPath | research_analyser/report_generator.py:20-37 | `_asset_path` on parsed paths; its four cases are stated by AssetPathCases and the three lemmas after it |
| ReportGenerator.AssetPathCases | research_analyser/report_generator.py:20-37 | the four cases: an absolute path under the output dir becomes a relative remainder that, joined to the dir, gives the path back; another absolute path is unchanged; a relative path whose first part is the dir's name loses that part; anything else is unchanged |
| ReportGenerator.AssetPathUnder | research_analyser/report_generator.py:25-27 | an absolute path under the output dir becomes the relative remainder |
| ReportGenerator.AssetPathStripped | research_analyser/report_generator.py:32-35 | a relative path starting with the dir's name loses that first part |
| ReportGenerator.AssetPathKept | research_analyser/report_generator.py:28-37 | any other path is returned unchanged |
| ReportGenerator.AssetPathNotIdempotent | research_analyser/report_generator.py:32-35 | `_asset_path` is not idempotent: `output/output/x` gives `output/x`, which gives `x` |
| ReportGenerator.StripsLeadingName | research_analyser/report_generator.py:34-35 | the stripped result is the rendering of the remaining parts |
| ReportGenerator.ParsedLiterals | research_analyser/report_generator.py:22-35 | the parses and renderings of `output`, `output/x` and `output/output/x` used by the non-idempotence example |
| ReportGenerator.ParsedOutput | research_analyser/report_generator.py:22 | `output` parses to one relative part |
| ReportGenerator.ParsedOutputX | research_analyser/report_generator.py:22-35 | `output/x` parses to two parts and renders back |
| ReportGenerator.ParsedOutputOutputX | research_analyser/report_generator.py:22 | `output/output/x` parses to three parts |
| ReportGenerator.InlineEquations | research_analyser/report_generator.py:204-206 | the inline equations are exactly the equations flagged inline |
| ReportGenerator.DisplayInlineSplit | research_analyser/report_generator.py:204-206 | display count plus inline count is the total, so the printed inline count is total − display |
| ReportGenerator.DisplayPrefixIs | research_analyser/report_generator.py:242-250 | the display equations collected after i steps of the loop are those of the first i equations |
| ReportGenerator.DisplaySnoc | research_analyser/report_generator.py:242-243 | one more equation adds itself to the display list exactly when it is not inline |
| ReportGenerator.DisplayAppend | research_analyser/report_generator.py:75-77 | selecting display equations distributes over concatenation |
| ReportGenerator.Listed | research_analyser/report_generator.py:78 | a listing holds at most `cap` display equations from the list, and all of them when there are fewer |
| ReportGenerator.ListingsNested | research_analyser/report_generator.py:78 | the listings capped at 10 (`report.md`), 15 (`key_points.md`) and 20 (HTML) are prefixes of one another |
| ReportGenerator.ReportEquationHeading | research_analyser/report_generator.py:79-80 | the heading is the id, followed by ` (<label>)` exactly when the label is set and non-empty |
| ReportGenerator.KeyPointsEquationHeading | research_analyser/report_generator.py:191-192 | the key-points heading is the label when there is one, else the id, so it is what the report heading puts in parentheses |
| ReportGenerator.HighPoints | research_analyser/report_generator.py:179 | exactly the high-importance points |
| ReportGenerator.CoreContributions | research_analyser/report_generator.py:179-180 | every high point when there is one; otherwise the first five points; never empty when there are points |
| ReportGenerator.NumberedLines | research_analyser/report_generator.py:180-181 | the k-th line is `<k+1>. <item>` |
| ReportGenerator.Points | research_analyser/report_generator.py:181 | the points of the key points, one for one |
| ReportGenerator.CoreContributionLines | research_analyser/report_generator.py:178-182 | one numbered line per core contribution, in order |
| ReportGenerator.DocumentStatistics | research_analyser/report_generator.py:198-217 | display + inline = total equations, display is the number of display equations, inline that of inline ones; the review line appears iff there is a review, with the score's decision |
| ReportGenerator.SpecEquations | research_analyser/report_generator.py:241-250 | the spec-output equation list holds exactly the display equations, in order, with id, LaTeX, label, section and description |
| ReportGenerator.Findings | research_analyser/report_generator.py:257-265 | one structured finding per key point, carrying its point, evidence, section and importance |
| ReportGenerator.ReviewScores | research_analyser/report_generator.py:270-283 | the scores block is present iff there is a review, with the overall score, its decision and one entry per dimension |
| ReportGenerator.EquationsJson | research_analyser/report_generator.py:449-460 | one entry per equation, in order, with its fields, typed `inline` iff the equation is inline and `display` otherwise |
| ReportGenerator.DisplayRecordsCounted | research_analyser/report_generator.py:449-460 | `equations.json` types as `display` exactly as many equations as there are display equations |
| ReportGenerator.TablesJson | research_analyser/report_generator.py:466-474 | one entry per table, in order, with its id, content, caption and section |
| ReportGenerator.MetadataRecord | research_analyser/report_generator.py:480-494 | the `num_*` fields are the list lengths and `review_score` is the overall score, or null without a review |
| ReportGenerator.SavedRecordsAgree | research_analyser/report_generator.py:405-499 | the saved files agree: metadata counts, JSON list lengths and the statistics match, and the review score appears in both or neither |
| ReportGenerator.Select | research_analyser/report_generator.py:39-162 | a document's sections are those of the fixed order that it writes |
| ReportGenerator.ReportSections | research_analyser/report_generator.py:39-162 | `report.md` has the peer review iff there is a review, key equations iff there are equations at all (even without a display one), tables iff there are tables, and never extracted figures |
| ReportGenerator.ReviewSubsections | research_analyser/report_generator.py:101-144 | no review subsections without a review; with one, scores, strengths and weaknesses always, suggestions and related work iff there are any |
| ReportGenerator.RelatedWorksListed | research_analyser/report_generator.py:139-143 | at most the first ten related works, all of them when fewer, none without a review |
| ReportGenerator.ReportTables | research_analyser/report_generator.py:155-160 | `report.md` shows the first five tables |
| ReportGenerator.WithImage | research_analyser/report_generator.py:373 | exactly the figures that have an image path |
| ReportGenerator.WithImageEmpty | research_analyser/report_generator.py:373-374 | no figure survives the filter iff none has an image |
| ReportGenerator.HtmlFigures | research_analyser/report_generator.py:373-376 | at most ten figures, each with an image, all of them when fewer than ten |
| ReportGenerator.HtmlSections | research_analyser/report_generator.py:287-403 | the HTML report has key equations iff there is a display equation, figures iff one has an image, peer review iff there is a review, and never tables |
| ReportGenerator.KeyPointsSections | research_analyser/report_generator.py:164-220 | `key_points.md` opens with Core Contributions, closes with Document Statistics, and has Equations & Formulae iff there is a display equation |
| ReportGenerator.AuthorsLine | research_analyser/report_generator.py:291 | the authors line is the comma-joined names, or `Unknown` when that is empty; never empty |
| ReportGenerator.DiagramEmbeds | research_analyser/report_generator.py:92-97 | one embedded path per diagram, each the asset path of its image under the output dir (default `./output`) |
| TtsEngine.DropDisplayMath | research_analyser/tts_engine.py:277 | removing `$$…$$` blocks never lengthens the text |
| TtsEngine.DropSpans | research_analyser/tts_engine.py:278-286 | removing the `$…$` spans (inline math) or the `<…>` spans (HTML tags) never lengthens the text |
| TtsEngine.DropEmphasis | research_analyser/tts_engine.py:280 | unwrapping emphasis never lengthens the text |
| TtsEngine.DropLinks | research_analyser/tts_engine.py:282 | replacing links by their labels never lengthens the text |
| TtsEngine.DropHeadings | research_analyser/tts_engine.py:284 | removing heading marks never lengthens the text |
| TtsEngine.CollapseSpace | research_analyser/tts_engine.py:288 | collapsing whitespace runs never lengthens the text |
| TtsEngine.CleanForSpeech | research_analyser/tts_engine.py:274-289 | cleaning never lengthens the text |
| TtsEngine.Visible | research_analyser/tts_engine.py:288 | the visible characters are at most the text |
| TtsEngine.VisibleAppend | research_analyser/tts_engine.py:288 | the visible characters of a concatenation are those of its halves |
| TtsEngine.VisibleAllSpace | research_analyser/tts_engine.py:288 | whitespace has no visible characters |
| TtsEngine.CollapseSpaceVisible | research_analyser/tts_engine.py:288 | the whitespace collapse keeps every visible character, in order |
| TtsEngine.CollapseRunVisible | research_analyser/tts_engine.py:288 | a whitespace run becomes one space without changing the visible characters |
| TtsEngine.CollapseKeepVisible | research_analyser/tts_engine.py:288 | any other character is kept |
| TtsEngine.CollapseSpaceSingle | research_analyser/tts_engine.py:288 | after the collapse, whitespace is single spaces, never two in a row, leading only where the text had whitespace |
| TtsEngine.StripVisible | research_analyser/tts_engine.py:288 | `strip` only removes whitespace |
| TtsEngine.CleanForSpeechShape | research_analyser/tts_engine.py:274-289 | the cleaned text is stripped and single-spaced, and keeps every visible character of the text after the six markup substitutions, in order |
| TtsEngine.StripSingleSpaced | research_analyser/tts_engine.py:288 | stripping keeps a single-spaced text single-spaced |
| TtsEngine.DropDisplayMathPlain | research_analyser/tts_engine.py:277 | a text without `$` is unchanged |
| TtsEngine.DropSpansPlain | research_analyser/tts_engine.py:278-286 | a text without the opening character (`$` or `<`) is unchanged by the span removal |
| TtsEngine.DropEmphasisPlain | research_analyser/tts_engine.py:280 | a text without `*` is unchanged |
| TtsEngine.DropLinksPlain | research_analyser/tts_engine.py:282 | a text without `[` is unchanged |
| TtsEngine.DropHeadingsPlain | research_analyser/tts_engine.py:284 | a text without `#` is unchanged |
| TtsEngine.CleanPlainText | research_analyser/tts_engine.py:274-289 | a text without math, emphasis, links, headings or tags only has its whitespace collapsed and stripped |
| TtsEngine.BreakAt | research_analyser/tts_engine.py:214 | the next split point: whitespace right after `.`, `!` or `?`, with none in between |
| TtsEngine.SentencesFrom | research_analyser/tts_engine.py:214 | the split always yields at least one piece |
| TtsEngine.SentencesShape | research_analyser/tts_engine.py:214 | every piece but the last ends with a terminator, and every piece but the first starts with a visible character or is the empty piece after trailing whitespace |
| TtsEngine.SentencesStep | research_analyser/tts_engine.py:214 | a split before the end closes one piece and continues after the whitespace run |
| TtsEngine.PieceTerminated | research_analyser/tts_engine.py:214 | a piece closed at a split point ends with a terminator |
| TtsEngine.WellSplitCons | research_analyser/tts_engine.py:214 | a terminated piece in front of a well-split rest keeps the shape |
| TtsEngine.FirstUnpadded | research_analyser/tts_engine.py:214 | the piece after a whitespace run starts with a visible character |
| TtsEngine.SentencesVisible | research_analyser/tts_engine.py:214 | the sentence split only drops whitespace |
| TtsEngine.LastSentenceVisible | research_analyser/tts_engine.py:214 | the last piece keeps the rest of the text |
| TtsEngine.SentenceStepVisible | research_analyser/tts_engine.py:214 | one split step keeps the visible characters |
| TtsEngine.VisibleGap | research_analyser/tts_engine.py:214 | dropping a whitespace gap keeps the visible characters |
| TtsEngine.Glue | research_analyser/tts_engine.py:216-220 | the accumulated text of a run is empty exactly when the run is |
| TtsEngine.Stripped | research_analyser/tts_engine.py:219-223 | one chunk per run, the stripped accumulated text |
| TtsEngine.PackShape | research_analyser/tts_engine.py:215-221 | the runs cover the sentences in order without splitting one, none is empty, a run exceeds the bound only as a single sentence, and each was closed because the next sentence did not fit |
| TtsEngine.Pack | research_analyser/tts_engine.py:215-221 | the greedy packing of sentences into runs, as a definition; PackShape states it and PackSentences is proved against it |
| TtsEngine.GreedyClose | research_analyser/tts_engine.py:218-221 | closing a run when the next sentence does not fit keeps the packing greedy |
| TtsEngine.GreedyExtend | research_analyser/tts_engine.py:218-221 | adding a sentence that fits, or to an empty run, keeps the packing greedy |
| TtsEngine.GlueVisible | research_analyser/tts_engine.py:221 | the accumulated text keeps the visible characters of its sentences |
| TtsEngine.StrippedVisible | research_analyser/tts_engine.py:219-223 | the stripped chunks keep the visible characters of all runs |
| TtsEngine.Extended | research_analyser/tts_engine.py:221 | appending `" " + sent` adds exactly the sentence's visible characters |
| TtsEngine.ChunksVisible | research_analyser/tts_engine.py:212-224 | chunking neither loses nor adds a visible character |
| TtsEngine.ChunksShape | research_analyser/tts_engine.py:212-224 | the chunks are either the fallback `[text]` or one stripped chunk per greedy run, exceeding the bound only for a single sentence, and dropping only a last run that is all whitespace |
| TtsEngine.Chunks | research_analyser/tts_engine.py:212-224 | `_chunk_text` as a definition; ChunksShape and ChunksVisible state it and ChunkText is proved against it |
| TtsEngine.ChunksOfShape | research_analyser/tts_engine.py:222-224 | the chunks of a greedy packing relate to its runs as `ChunksShape` says |
| TtsEngine.PackPush | research_analyser/tts_engine.py:217-221 | one more sentence is one more loop step |
| TtsEngine.StrippedPush | research_analyser/tts_engine.py:219 | closing a run appends its stripped text |
| TtsEngine.PackSentences | research_analyser/tts_engine.py:215-221 | the loop leaves the stripped closed runs as chunks and the open run's text as `current` |
| TtsEngine.ChunkText | research_analyser/tts_engine.py:212-224 | `_chunk_text` returns the chunks of the greedy packing, at least one, with every visible character of the text in order |
| TtsEngine.Findings | research_analyser/tts_engine.py:158-159 | one finding per key point, numbered from 1 in order |
| TtsEngine.KeyFindingParts | research_analyser/tts_engine.py:156-159 | nothing without key points; otherwise a heading and the numbered findings |
| TtsEngine.Indented | research_analyser/tts_engine.py:188-192 | each item indented by two spaces |
| TtsEngine.AppendFindings | research_analyser/tts_engine.py:158-159 | the loop appends the numbered findings |
| TtsEngine.AppendListed | research_analyser/tts_engine.py:185-192 | appends the heading and the first five items indented, when there are items |
| TtsEngine.IndentedPush | research_analyser/tts_engine.py:187-188 | one more item adds one indented part |
| TtsEngine.AppendReview | research_analyser/tts_engine.py:177-192 | appends the score line and the listings, only with a review |
| TtsEngine.AppendSummary | research_analyser/tts_engine.py:150-153 | appends the one-sentence summary, and the abstract summary when not empty |
| TtsEngine.AppendKeyFindings | research_analyser/tts_engine.py:156-159 | appends the findings heading and findings when there are key points |
| TtsEngine.AppendLabelled | research_analyser/tts_engine.py:162-174 | appends methodology, results and conclusions, each headed, when not empty |
| TtsEngine.BuildNarration | research_analyser/tts_engine.py:138-205 | `build_narration` is the cleaned join of the narration parts, stripped and single-spaced |
| TtsEngine.Narration | research_analyser/tts_engine.py:138-205 | `build_narration` as a definition; BuildNarration is proved against it |
| TtsEngine.NarrationBookends | research_analyser/tts_engine.py:143-204 | there are at least three parts: the title first, the statistics and the closing part last; the joined text starts and ends with them |
| TtsEngine.JoinEnds | research_analyser/tts_engine.py:204 | a join starts with the first part and separator and ends with the separator and last part |
| TtsEngine.ListedShape | research_analyser/tts_engine.py:185-192 | a listing is the heading then the first items, at most five, each indented |
| TtsEngine.ReviewPartsShape | research_analyser/tts_engine.py:177-192 | the score line comes first with one of `interpret_score`'s decisions, then at most five strengths and five weaknesses, at most 13 parts |
| TtsEngine.AuthorsNamed | research_analyser/tts_engine.py:146-147 | one authors part iff there are authors, naming the first at most five |
| Comparison.Get | research_analyser/comparison.py:37-41 | a payload lookup is present exactly when the key is in the payload, and then holds the payload's value |
| Comparison.Or | research_analyser/comparison.py:37 | Python's `or` on optional numbers: the left value when it is present and non-zero, otherwise the right one |
| Comparison.FromDictOverall | research_analyser/comparison.py:34-42 | the overall score is taken from `overall_score` if truthy, else `review_score` if truthy, else whatever `overall` holds (a zero falls through); it is always one of the payload's values; source, soundness and confidence are copied by key |
| Comparison.FromDict | research_analyser/comparison.py:34-43 | `_from_dict` as a definition; FromDictOverall states which key each score comes from |
| Comparison.LocalSnapshot | research_analyser/comparison.py:62-97 | without `metadata.json` the local snapshot has no score at all; with it, overall is the metadata's truthy `review_score` or else the scores block's `overall`, the three dimensions come from the block's `dimensions` entries and confidence from the block; the source is always `local` |
| Comparison.LocalWithoutSpec | research_analyser/comparison.py:69-97 | with no scores block only the overall score can be present, and it is present exactly when the metadata's `review_score` is truthy |
| Comparison.FormatScore | research_analyser/comparison.py:100-101 | a present score is written by the number format, a missing one as `n/a` |
| Comparison.Delta | research_analyser/comparison.py:104-107 | the delta cell is the signed difference local − external when both are present, `n/a` when either is missing |
| Comparison.NaExactlyWhenMissing | research_analyser/comparison.py:100-107 | with formatters that never write `n/a`, a score cell reads `n/a` iff its score is missing, and a delta cell iff either score is missing |
| Comparison.DecisionNaExactlyWhenMissing | research_analyser/comparison.py:128-136 | a decision line reads `n/a` iff the overall score is missing (no score band is labelled `n/a`) |
| Comparison.HeadLines | research_analyser/comparison.py:112-120 | the report starts with nine fixed-shape lines: title, the two source lines and the table head |
| Comparison.ScoreRows | research_analyser/comparison.py:121-125 | exactly five metric rows, Overall, Soundness, Presentation, Contribution, Confidence in that order, each with the two formatted scores and their delta |
| Comparison.TailLines | research_analyser/comparison.py:126-142 | the two decision lines and the closing notes make eight lines |
| Comparison.ComparisonLines | research_analyser/comparison.py:110-142 | the report has 22 lines; lines 3 and 4 name the two sources, line 8 is the table header, lines 10-14 are the five metric rows in fixed order, lines 16 and 17 the local and external decisions |
| Comparison.ComparisonMarkdownLines | research_analyser/comparison.py:110-144 | when source names and formatted numbers contain no newline, splitting the joined report at newlines gives back exactly its 22 lines |
| Comparison.ComparisonMarkdown | research_analyser/comparison.py:110-144 | `build_comparison_markdown` as a definition; ComparisonMarkdownLines states its lines |

## Left out

- The OCR model run, its temporary directories and the reads of the `.md`, `.json`, `.tex` and `.meta.json` files in `extract`. What they leave (or the exception of the load or the run) is an `OcrRun` answer per PDF path. A TeX or sidecar file that fails to parse counts as absent, as the code's `except` makes it.
- The network in `input_handler.py`: aiohttp, the arXiv API, the e-print tar download and its TeX/metadata side files, and DOI content negotiation. File existence is a boolean parameter. Each download attempt is an outcome parameter: a status, a client error, or any other exception (the 120-second timeout, an OS error from the write), which propagates unchanged. The DOI lookup is an abstract answer.
- The `ValueError` that `SourceType(source_type)` raises for an unknown string, and the unreachable `Unknown source type` case. The override is an optional `SourceType`.
- Concurrency: `asyncio.gather` is modelled as running the tasks in request order. Interleavings of progress callbacks are not modelled.
- The PaperBanana and Gemini calls and matplotlib drawing in `diagram_generator.py`. Each diagram type has a rendering outcome or an error text.
- The language-model, LangGraph and Tavily calls inside the reviewer nodes. Their replies and search results are inputs. `float()` parsing is a function parameter.
- `parse_external_review` in `comparison.py` (regex and JSON file parsing). `parse_local_review`'s file reads and JSON decoding: the decoded payloads are parameters.
- The STORM runner, dspy and the language models behind `STORMReporter.generate`, and `_read_storm_output` (a filesystem search).
- Speech synthesis in `tts_engine.py`: torch, transformers, numpy, soundfile, device choice, sample rates and silence padding.
- In `report_generator.py`:
  - the file writes of `save_all`;
  - `json.dumps` text;
  - HTML/CSS boilerplate and escaping;
  - the dimension-weight percentage.

  The model states what each output selects and counts, as records and section lists, not the literal text.
- Float formatting (`:.1f`, `:.2f`, `:+.2f`) is an opaque function parameter. Score arithmetic is exact (`real`), so float rounding is not modelled.
- Timing and timestamps: the processing time and `analysed_at` are parameters.
- Case folding and `\w`/`\d` cover ASCII only. `lower()`, `title()` and IGNORECASE matching leave non-ASCII letters unchanged, and non-ASCII digits are not digits.
- `pathlib` on POSIX: a path is rooted or relative plus its non-empty parts other than `.`; `..` stays a part, as `pathlib` keeps it. A leading `//` (which POSIX `pathlib` keeps as a root of its own) and Windows paths are not modelled.
- EquationMerge.TexPart: numbers the TeX equations on from the markdown pass's final counter (the corrected numbering under Findings), not from `len(equations) + 1` as the code does, so its ids differ from the program's when the markdown pass dropped inline matches; the numbering as written is MergedAsWritten.
- EquationMerge.AllEquations: holds the TeX records with the corrected numbering of TexPart, not the program's `len(equations) + 1` numbering, which MergedAsWritten models.
- OcrDocument.Extract: its equations, like those of Document and so of the analyser's reports, follow the corrected numbering of TexPart; with a TeX source and dropped inline matches the program's ids differ (see MergedAsWrittenCollides).
- `tempfile.mkdtemp()` when no temporary directory is configured: the temporary directory is a parameter (`./tmp` by default).
- One `PaperReviewer` per analyser: the model's Assemble runs a reviewer whose workflow is not built yet. The outcome is the same: a workflow is built only when the graph libraries import, and then every later build is skipped.
- The UI, CLI and HTTP layers, packaging, scripts and configuration loading are not part of this model.

## Findings

| source | as written | input that shows it | evidently intended | confidence | as-written member | corrected member |
|---|---|---|---|---|---|---|
| research_analyser/ocr_engine.py:107-118 | the equations of the TeX source are renumbered from `len(equations) + 1`, but the markdown pass gives numbers to inline matches that it then drops, so its last id can exceed `len(equations)` | markdown `$a$ $bcd$` (the first match is dropped as too short, the second is `eq_002`) and a TeX source with one equation, which is also numbered `eq_002` | number the TeX equations on from the markdown pass's final counter, so that ids are unique | not executed | EquationMerge.MergedAsWrittenCollides | EquationMerge.MergedIdsDistinct |
