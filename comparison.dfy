/** `comparison.py`: score snapshots of a local and an external review, and
    the markdown table that sets them side by side. Number formatting
    (`:.2f`, `:+.2f`) is a parameter. */
module Comparison {
  import opened Text
  import opened Reviewer

  /** `ReviewSnapshot`: every score may be missing. */
  datatype Snapshot = Snapshot(
    source: string,
    overall: Option<real>,
    soundness: Option<real>,
    presentation: Option<real>,
    contribution: Option<real>,
    confidence: Option<real>)

  /** A decoded JSON object with numeric values; a key whose value is `null`
      is absent, since `dict.get` yields `None` for both. */
  type Payload = map<string, real>

  /** `payload.get(key)`. */
  function Get(payload: Payload, key: string): (r: Option<real>)
    ensures r.Some? <==> key in payload
    ensures r.Some? ==> r.value == payload[key]
  {
    if key in payload then Some(payload[key]) else None
  }

  /** Python truthiness of an optional number: present and not zero. */
  predicate Truthy(v: Option<real>) { v.Some? && v.value != 0.0 }

  /** Python's `a or b`. */
  function Or(a: Option<real>, b: Option<real>): (r: Option<real>)
    ensures Truthy(a) ==> r == a
    ensures !Truthy(a) ==> r == b
  {
    if Truthy(a) then a else b
  }

  /** `_from_dict`: the overall score is the first truthy value under
      `overall_score`, `review_score` and `overall`, in that order. */
  function FromDict(payload: Payload, source: string): Snapshot {
    Snapshot(source,
             Or(Or(Get(payload, "overall_score"), Get(payload, "review_score")), Get(payload, "overall")),
             Get(payload, "soundness"), Get(payload, "presentation"),
             Get(payload, "contribution"), Get(payload, "confidence"))
  }

  /** The overall score of `_from_dict` is the value under the first of its
      three keys that is present and not zero; when none is, it is the value
      under `overall`, which may be zero or missing. A zero earlier in the
      chain falls through. The other scores are read as they are. */
  lemma {:induction false} FromDictOverall(payload: Payload, source: string)
    ensures var s := FromDict(payload, source);
      (Truthy(Get(payload, "overall_score")) ==> s.overall == Some(payload["overall_score"]))
      && (!Truthy(Get(payload, "overall_score")) && Truthy(Get(payload, "review_score"))
          ==> s.overall == Some(payload["review_score"]))
      && (!Truthy(Get(payload, "overall_score")) && !Truthy(Get(payload, "review_score"))
          ==> s.overall == Get(payload, "overall"))
      && (s.overall.Some? ==> s.overall.value in payload.Values)
    ensures FromDict(payload, source).source == source
    ensures FromDict(payload, source).soundness == Get(payload, "soundness")
    ensures FromDict(payload, source).confidence == Get(payload, "confidence")
  {
    var o := FromDict(payload, source).overall;
    if o.Some? {
      if Truthy(Get(payload, "overall_score")) {
        assert o.value == payload["overall_score"];
      } else if Truthy(Get(payload, "review_score")) {
        assert o.value == payload["review_score"];
      } else {
        assert o.value == payload["overall"];
      }
    }
  }

  /** The scores block of `spec_output.md`, decoded: its top-level numbers and
      the `score` of each entry of its `dimensions` object. It is empty when
      the file is missing, holds no such block or the block is not valid
      JSON. */
  datatype SpecScores = SpecScores(top: Payload, dimensionScores: Payload)

  const NoSpecScores: SpecScores := SpecScores(map[], map[])

  /** The merge of `parse_local_review`: no scores at all without
      `metadata.json`; otherwise the overall score is the metadata's
      `review_score` when truthy, else the block's `overall`, the dimension
      scores come from the block's dimensions only, and the confidence from
      the block's top level. */
  function LocalSnapshot(metadata: Option<Payload>, spec: SpecScores): (s: Snapshot)
    ensures s.source == "local"
    ensures metadata.None? ==> s.overall.None? && s.soundness.None? && s.presentation.None?
                               && s.contribution.None? && s.confidence.None?
    ensures metadata.Some? ==> s.overall == Or(Get(metadata.value, "review_score"), Get(spec.top, "overall"))
    ensures metadata.Some? ==> s.soundness == Get(spec.dimensionScores, "soundness")
                               && s.presentation == Get(spec.dimensionScores, "presentation")
                               && s.contribution == Get(spec.dimensionScores, "contribution")
                               && s.confidence == Get(spec.top, "confidence")
  {
    if metadata.None? then Snapshot("local", None, None, None, None, None)
    else
      Snapshot("local", Or(Get(metadata.value, "review_score"), Get(spec.top, "overall")),
               Get(spec.dimensionScores, "soundness"), Get(spec.dimensionScores, "presentation"),
               Get(spec.dimensionScores, "contribution"), Get(spec.top, "confidence"))
  }

  /** Without the scores block the local snapshot's only possible score is
      the metadata's truthy `review_score`. */
  lemma {:induction false} LocalWithoutSpec(metadata: Payload)
    ensures var s := LocalSnapshot(Some(metadata), NoSpecScores);
      s.soundness.None? && s.presentation.None? && s.contribution.None? && s.confidence.None?
      && (s.overall.Some? <==> Truthy(Get(metadata, "review_score")))
  {
    assert Get(map[], "overall") == None;
  }

  /** A number formatter never writes `n/a`. */
  ghost predicate NumberFormat(format: real -> string) { forall x :: format(x) != "n/a" }

  /** `_fmt`. */
  function FormatScore(v: Option<real>, format: real -> string): (r: string)
    ensures v.Some? ==> r == format(v.value)
    ensures v.None? ==> r == "n/a"
  {
    if v.Some? then format(v.value) else "n/a"
  }

  /** `_delta`: the signed difference local − external. */
  function Delta(local: Option<real>, external: Option<real>, signed: real -> string): (r: string)
    ensures local.Some? && external.Some? ==> r == signed(local.value - external.value)
    ensures local.None? || external.None? ==> r == "n/a"
  {
    if local.None? || external.None? then "n/a" else signed(local.value - external.value)
  }

  /** With formatters that never write `n/a`, a cell reads `n/a` exactly when
      its score (for a delta, either score) is missing. */
  lemma {:induction false} NaExactlyWhenMissing(local: Option<real>, external: Option<real>,
                                                format: real -> string, signed: real -> string)
    requires NumberFormat(format) && NumberFormat(signed)
    ensures FormatScore(local, format) == "n/a" <==> local.None?
    ensures Delta(local, external, signed) == "n/a" <==> local.None? || external.None?
  {
    if local.Some? {
      assert forall x :: format(x) != "n/a";
      assert format(local.value) != "n/a";
      if external.Some? {
        assert signed(local.value - external.value) != "n/a";
      }
    }
  }

  /** The metric rows of the table, in their fixed order. */
  const MetricNames: seq<string> := ["Overall", "Soundness", "Presentation", "Contribution", "Confidence"]

  /** The score a metric row shows. */
  function Metric(s: Snapshot, i: nat): Option<real>
    requires i < |MetricNames|
  {
    if i == 0 then s.overall
    else if i == 1 then s.soundness
    else if i == 2 then s.presentation
    else if i == 3 then s.contribution
    else s.confidence
  }

  /** One row of the score table. */
  function MetricRow(name: string, local: Option<real>, external: Option<real>,
                     format: real -> string, signed: real -> string): string {
    "| " + name + " | " + FormatScore(local, format) + " | " + FormatScore(external, format)
    + " | " + Delta(local, external, signed) + " |"
  }

  /** A decision line: the band of the overall score, `n/a` without one. */
  function DecisionLine(who: string, overall: Option<real>): string {
    who + " decision: **" + (if overall.Some? then InterpretScore(overall.value) else "n/a") + "**"
  }

  /** No decision label is `n/a`. */
  lemma {:induction false} DecisionNaExactlyWhenMissing(who: string, overall: Option<real>)
    ensures DecisionLine(who, overall) == who + " decision: **n/a**" <==> overall.None?
  {
    var prefix := who + " decision: **";
    assert who + " decision: **n/a**" == prefix + "n/a" + "**";
    if overall.Some? {
      var d := InterpretScore(overall.value);
      InterpretScoreDecisions(overall.value);
    }
  }

  /** The fixed lines of the table's head (its column titles and alignment
      rule) and of the two closing notes under the table. */
  const TableHeader: string := "| Metric | Local | External |" + " Delta (Local-External) |"
  const TableRule: string := "|---|---:|---:|---:|"
  const NaNote: string := "- `n/a` means the score was " + NaTail
  const NaTail: string := "not found in the provided"
    + " source."
  const JsonNote: string := JsonLead + JsonKeys + "`contribution`, `confidence`."
  const JsonLead: string := "- For best results, provide " + "external review as JSON with "
  const JsonKeys: string := "keys: `overall_score`, " + "`soundness`, `presentation`, "

  /** The title, the two source lines and the head of the score table. */
  function HeadLines(local: string, external: string): (lines: seq<string>)
    ensures |lines| == 9
  {
    ["# Review Comparison", "", "Local source: `" + local + "`", "External source: `" + external + "`",
     "", "## Score Table", "", TableHeader, TableRule]
  }

  /** The five metric rows, in their fixed order. */
  function ScoreRows(local: Snapshot, external: Snapshot, format: real -> string, signed: real -> string)
    : (rows: seq<string>)
    ensures |rows| == |MetricNames|
    ensures forall i :: 0 <= i < |MetricNames| ==>
      rows[i] == MetricRow(MetricNames[i], Metric(local, i), Metric(external, i), format, signed)
  {
    [MetricRow("Overall", local.overall, external.overall, format, signed),
     MetricRow("Soundness", local.soundness, external.soundness, format, signed),
     MetricRow("Presentation", local.presentation, external.presentation, format, signed),
     MetricRow("Contribution", local.contribution, external.contribution, format, signed),
     MetricRow("Confidence", local.confidence, external.confidence, format, signed)]
  }

  /** The two decision lines and the notes. */
  function TailLines(local: Option<real>, external: Option<real>): (lines: seq<string>)
    ensures |lines| == 8
  {
    ["", DecisionLine("Local", local), DecisionLine("External", external)] + NotesLines
  }

  /** The notes closing the report. */
  const NotesLines: seq<string> := ["", "## Notes", "", NaNote, JsonNote]

  /** The lines of `build_comparison_markdown`. */
  function ComparisonLines(local: Snapshot, external: Snapshot, format: real -> string, signed: real -> string)
    : (lines: seq<string>)
    ensures |lines| == 22
    ensures lines[2] == "Local source: `" + local.source + "`"
    ensures lines[3] == "External source: `" + external.source + "`"
    ensures lines[7] == TableHeader
    ensures forall i :: 0 <= i < |MetricNames| ==>
      lines[9 + i] == MetricRow(MetricNames[i], Metric(local, i), Metric(external, i), format, signed)
    ensures lines[15] == DecisionLine("Local", local.overall)
    ensures lines[16] == DecisionLine("External", external.overall)
  {
    HeadLines(local.source, external.source) + ScoreRows(local, external, format, signed)
    + TailLines(local.overall, external.overall)
  }

  /** `build_comparison_markdown`: the lines joined by newlines. */
  function ComparisonMarkdown(local: Snapshot, external: Snapshot, format: real -> string, signed: real -> string)
    : string
  {
    Join(ComparisonLines(local, external, format, signed), "\n")
  }

  /** A number formatter writes no newline. */
  ghost predicate SingleLine(format: real -> string) { forall x :: '\n' !in format(x) }

  lemma {:induction false} MetricRowSingleLine(name: string, local: Option<real>, external: Option<real>,
                                               format: real -> string, signed: real -> string)
    requires '\n' !in name && SingleLine(format) && SingleLine(signed)
    ensures '\n' !in MetricRow(name, local, external, format, signed)
  {
    assert forall x :: '\n' !in format(x);
    assert forall x :: '\n' !in signed(x);
  }

  lemma {:induction false} DecisionsSingleLine()
    ensures forall k :: 0 <= k < |Decisions| ==> '\n' !in Decisions[k]
  {
  }

  lemma {:induction false} DecisionLineSingleLine(who: string, overall: Option<real>)
    requires '\n' !in who
    ensures '\n' !in DecisionLine(who, overall)
  {
    var answer := if overall.Some? then InterpretScore(overall.value) else "n/a";
    if overall.Some? {
      InterpretScoreDecisions(overall.value);
      DecisionsSingleLine();
      var k :| 0 <= k < |Decisions| && Decisions[k] == answer;
    }
    assert '\n' !in " decision: **" && '\n' !in "**";
    assert DecisionLine(who, overall) == who + " decision: **" + answer + "**";
  }

  lemma {:induction false} HeaderSingleLine()
    ensures '\n' !in TableHeader && '\n' !in TableRule
  {
  }

  lemma {:induction false} NaNoteSingleLine()
    ensures '\n' !in NaNote
  {
    assert '\n' !in "- `n/a` means the score was ";
    assert '\n' !in "not found in the provided";
    assert '\n' !in " source.";
  }

  lemma {:induction false} JsonLeadSingleLine()
    ensures '\n' !in JsonLead
  {
  }

  lemma {:induction false} JsonKeysSingleLine()
    ensures '\n' !in JsonKeys
  {
  }

  lemma {:induction false} JsonNoteSingleLine()
    ensures '\n' !in JsonNote
  {
    JsonLeadSingleLine();
    JsonKeysSingleLine();
  }

  lemma {:induction false} HeadSingleLine(local: string, external: string)
    requires '\n' !in local && '\n' !in external
    ensures forall k :: 0 <= k < |HeadLines(local, external)| ==> '\n' !in HeadLines(local, external)[k]
  {
    assert '\n' !in "Local source: `" && '\n' !in "External source: `" && '\n' !in "`";
    assert '\n' !in "# Review Comparison" && '\n' !in "## Score Table";
    HeaderSingleLine();
  }

  lemma {:induction false} NotesSingleLine()
    ensures forall k :: 0 <= k < |NotesLines| ==> '\n' !in NotesLines[k]
  {
    assert '\n' !in "## Notes" && '\n' !in "";
    NaNoteSingleLine();
    JsonNoteSingleLine();
  }

  lemma {:induction false} WhoSingleLine()
    ensures '\n' !in "Local" && '\n' !in "External"
  {
  }

  lemma {:induction false} TailSingleLine(local: Option<real>, external: Option<real>)
    ensures forall k :: 0 <= k < |TailLines(local, external)| ==> '\n' !in TailLines(local, external)[k]
  {
    var t := TailLines(local, external);
    WhoSingleLine();
    DecisionLineSingleLine("Local", local);
    DecisionLineSingleLine("External", external);
    NotesSingleLine();
    var local', external' := DecisionLine("Local", local), DecisionLine("External", external);
    assert t == ["", local', external'] + NotesLines;
    assert '\n' !in t[0] && '\n' !in t[1] && '\n' !in t[2];
    forall k | 3 <= k < |t| ensures '\n' !in t[k] {
      assert t[k] == NotesLines[k - 3];
    }
  }

  /** The report splits back into its lines at the newlines, provided the
      source names and the formatted numbers hold no newline: every line of
      the table is one line of the text. */
  lemma {:induction false} ComparisonMarkdownLines(local: Snapshot, external: Snapshot,
                                                   format: real -> string, signed: real -> string)
    requires '\n' !in local.source && '\n' !in external.source
    requires SingleLine(format) && SingleLine(signed)
    ensures Split(ComparisonMarkdown(local, external, format, signed), '\n') == ComparisonLines(local, external, format, signed)
  {
    var head := HeadLines(local.source, external.source);
    var rows := ScoreRows(local, external, format, signed);
    var tail := TailLines(local.overall, external.overall);
    forall i | 0 <= i < |MetricNames| ensures '\n' !in rows[i] {
      MetricRowSingleLine(MetricNames[i], Metric(local, i), Metric(external, i), format, signed);
    }
    HeadSingleLine(local.source, external.source);
    TailSingleLine(local.overall, external.overall);
    var lines := head + rows + tail;
    forall k | 0 <= k < |lines| ensures '\n' !in lines[k] {
      if k < |head| {
        assert lines[k] == head[k];
      } else if k < |head| + |rows| {
        assert lines[k] == rows[k - |head|];
      } else {
        assert lines[k] == tail[k - |head| - |rows|];
      }
    }
    JoinSplit(lines, '\n');
  }
}
