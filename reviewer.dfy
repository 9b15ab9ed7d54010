/** Review scoring (`compute_final_score`, `interpret_score`) and the review
    workflow of `reviewer.py`: a fixed chain of nodes updating one shared review
    state, with the language-model replies and search results as inputs. */
module Reviewer {
  import opened Text
  import opened Models

  const Intercept: real := -0.3057
  const WeightSoundness: real := 0.7134
  const WeightPresentation: real := 0.4242
  const WeightContribution: real := 1.0588

  /** The linear formula before clamping. */
  function RawScore(s: real, p: real, c: real): real {
    Intercept + WeightSoundness * s + WeightPresentation * p + WeightContribution * c
  }

  function Max(a: real, b: real): real { if a >= b then a else b }

  function Min(a: real, b: real): real { if a <= b then a else b }

  /** The overall score on the 1-10 scale: the formula clamped to [1, 10]. */
  function ComputeFinalScore(s: real, p: real, c: real): (r: real)
    ensures 1.0 <= r <= 10.0
    ensures 1.0 <= RawScore(s, p, c) <= 10.0 ==> r == RawScore(s, p, c)
    ensures RawScore(s, p, c) < 1.0 ==> r == 1.0
    ensures RawScore(s, p, c) > 10.0 ==> r == 10.0
  {
    Max(1.0, Min(10.0, RawScore(s, p, c)))
  }

  /** On the rubric's own range [1, 4] the clamp never fires. */
  lemma {:induction false} RubricRangeUnclamped(s: real, p: real, c: real)
    requires 1.0 <= s <= 4.0 && 1.0 <= p <= 4.0 && 1.0 <= c <= 4.0
    ensures 1.8907 <= RawScore(s, p, c) <= 8.4799
    ensures ComputeFinalScore(s, p, c) == RawScore(s, p, c)
  {
  }

  lemma {:induction false} ScoreExamples()
    ensures ComputeFinalScore(3.0, 3.0, 3.0) == 6.2835
    ensures ComputeFinalScore(0.0, 0.0, 0.0) == 1.0
    ensures ComputeFinalScore(4.0, 4.0, 4.0) == 8.4799
  {
  }

  /** Within the rubric range, one more point on a dimension adds exactly that
      dimension's weight; contribution weighs most and presentation least. */
  lemma {:induction false} DimensionDeltas(s: real, p: real, c: real)
    requires 1.0 <= s <= 3.0 && 1.0 <= p <= 3.0 && 1.0 <= c <= 3.0
    ensures ComputeFinalScore(s + 1.0, p, c) - ComputeFinalScore(s, p, c) == WeightSoundness
    ensures ComputeFinalScore(s, p + 1.0, c) - ComputeFinalScore(s, p, c) == WeightPresentation
    ensures ComputeFinalScore(s, p, c + 1.0) - ComputeFinalScore(s, p, c) == WeightContribution
    ensures WeightContribution > WeightSoundness > WeightPresentation
  {
    RubricRangeUnclamped(s, p, c);
    RubricRangeUnclamped(s + 1.0, p, c);
    RubricRangeUnclamped(s, p + 1.0, c);
    RubricRangeUnclamped(s, p, c + 1.0);
  }

  /** The clamped score never decreases when a dimension score increases. */
  lemma {:induction false} Monotone(s: real, p: real, c: real, s': real, p': real, c': real)
    requires s <= s' && p <= p' && c <= c'
    ensures ComputeFinalScore(s, p, c) <= ComputeFinalScore(s', p', c')
  {
  }

  // ---------------------------------------------------------------- decisions

  datatype Band = Band(low: real, high: real, name: string)

  /** `SCORE_LABELS`, in the order the dict lists them. */
  const ScoreLabels: seq<Band> := [
    Band(1.0, 3.0, "Strong Reject"),
    Band(3.0, 4.0, "Reject"),
    Band(4.0, 5.0, "Weak Reject"),
    Band(5.0, 6.0, "Borderline"),
    Band(6.0, 7.0, "Weak Accept"),
    Band(7.0, 8.0, "Accept"),
    Band(8.0, 10.0, "Strong Accept")
  ]

  predicate InBand(b: Band, score: real) { b.low <= score < b.high }

  /** The label of the first band, from index `i` on, whose half-open range holds `score`. */
  function FirstBand(bands: seq<Band>, score: real, i: nat): (r: Option<string>)
    requires i <= |bands|
    ensures r.None? <==> forall k :: i <= k < |bands| ==> !InBand(bands[k], score)
    ensures r.Some? ==> exists k :: (i <= k < |bands| && InBand(bands[k], score) && r.value == bands[k].name
                                     && forall j :: i <= j < k ==> !InBand(bands[j], score))
    decreases |bands| - i
  {
    if i == |bands| then None
    else if InBand(bands[i], score) then Some(bands[i].name)
    else FirstBand(bands, score, i + 1)
  }

  /** The bands follow each other without overlap. */
  predicate Ascending(bands: seq<Band>) {
    forall j, k :: 0 <= j < k < |bands| ==> bands[j].high <= bands[k].low
  }

  lemma {:induction false} ScoreLabelsAscending()
    ensures Ascending(ScoreLabels)
  {
  }

  /** The decision label of a score: the band holding it, "Strong Accept" from 8
      up (10 included), and "Unknown" below 1. */
  function InterpretScore(score: real): (decision: string)
    ensures forall k :: 0 <= k < |ScoreLabels| && InBand(ScoreLabels[k], score) ==> decision == ScoreLabels[k].name
    ensures score >= 8.0 ==> decision == "Strong Accept"
    ensures decision == "Unknown" <==> score < 1.0
  {
    FirstBandIsBand(score);
    FirstBandKnown(score);
    assert |"Strong Accept"| != |"Unknown"|;
    match FirstBand(ScoreLabels, score, 0)
    case Some(l) => l
    case None => if score >= 8.0 then "Strong Accept" else "Unknown"
  }

  /** In bands that do not overlap, the band holding a score is the first
      one found. */
  lemma {:induction false} FirstBandOfAscending(bands: seq<Band>, score: real, k: nat)
    requires Ascending(bands) && k < |bands| && InBand(bands[k], score)
    ensures FirstBand(bands, score, 0) == Some(bands[k].name)
  {
    var j :| 0 <= j < |bands| && InBand(bands[j], score)
      && FirstBand(bands, score, 0).value == bands[j].name
      && forall i :: 0 <= i < j ==> !InBand(bands[i], score);
    if j < k {
      assert bands[j].high <= bands[k].low;
    }
  }

  lemma {:induction false} FirstBandIsBand(score: real)
    ensures forall k :: 0 <= k < |ScoreLabels| && InBand(ScoreLabels[k], score) ==>
      FirstBand(ScoreLabels, score, 0) == Some(ScoreLabels[k].name)
  {
    ScoreLabelsAscending();
    forall k | 0 <= k < |ScoreLabels| && InBand(ScoreLabels[k], score)
      ensures FirstBand(ScoreLabels, score, 0) == Some(ScoreLabels[k].name)
    {
      FirstBandOfAscending(ScoreLabels, score, k);
    }
  }

  /** The bands cover `[1, 10)`, and none is labelled `Unknown`. */
  lemma {:induction false} FirstBandKnown(score: real)
    ensures FirstBand(ScoreLabels, score, 0).None? <==> score < 1.0 || score >= 10.0
    ensures FirstBand(ScoreLabels, score, 0) != Some("Unknown")
    ensures 8.0 <= score < 10.0 ==> FirstBand(ScoreLabels, score, 0) == Some("Strong Accept")
  {
    FirstBandIsBand(score);
    var b := ScoreLabels;
    if score < 1.0 || score >= 10.0 {
      assert forall k :: 0 <= k < |b| ==> !InBand(b[k], score);
    } else if score < 3.0 {
      assert InBand(b[0], score) && |b[0].name| != 7;
    } else if score < 4.0 {
      assert InBand(b[1], score) && |b[1].name| != 7;
    } else if score < 5.0 {
      assert InBand(b[2], score) && |b[2].name| != 7;
    } else if score < 6.0 {
      assert InBand(b[3], score) && |b[3].name| != 7;
    } else if score < 7.0 {
      assert InBand(b[4], score) && |b[4].name| != 7;
    } else if score < 8.0 {
      assert InBand(b[5], score) && |b[5].name| != 7;
    } else {
      assert InBand(b[6], score) && |b[6].name| != 7 && b[6].name == "Strong Accept";
    }
  }

  /** Every answer `interpret_score` can give. */
  const Decisions: seq<string> :=
    ["Strong Reject", "Reject", "Weak Reject", "Borderline", "Weak Accept", "Accept", "Strong Accept", "Unknown"]

  /** `interpret_score` answers with a band label or `Unknown`. */
  lemma {:induction false} InterpretScoreDecisions(score: real)
    ensures InterpretScore(score) in Decisions
  {
    var d := InterpretScore(score);
    if score < 1.0 {
      assert Decisions[7] == d;
    } else if score >= 8.0 {
      assert Decisions[6] == d;
    } else if score < 3.0 {
      assert InBand(ScoreLabels[0], score) && Decisions[0] == d;
    } else if score < 4.0 {
      assert InBand(ScoreLabels[1], score) && Decisions[1] == d;
    } else if score < 5.0 {
      assert InBand(ScoreLabels[2], score) && Decisions[2] == d;
    } else if score < 6.0 {
      assert InBand(ScoreLabels[3], score) && Decisions[3] == d;
    } else if score < 7.0 {
      assert InBand(ScoreLabels[4], score) && Decisions[4] == d;
    } else {
      assert InBand(ScoreLabels[5], score) && Decisions[5] == d;
    }
  }

  /** The band boundaries belong to the higher band. */
  lemma {:induction false} BoundariesGoUp()
    ensures InterpretScore(3.0) == "Reject" && InterpretScore(4.0) == "Weak Reject"
    ensures InterpretScore(5.0) == "Borderline" && InterpretScore(6.0) == "Weak Accept"
    ensures InterpretScore(7.0) == "Accept" && InterpretScore(8.0) == "Strong Accept"
    ensures InterpretScore(10.0) == "Strong Accept" && InterpretScore(1.0) == "Strong Reject"
  {
    assert InBand(ScoreLabels[1], 3.0) && InBand(ScoreLabels[2], 4.0) && InBand(ScoreLabels[3], 5.0);
    assert InBand(ScoreLabels[4], 6.0) && InBand(ScoreLabels[5], 7.0) && InBand(ScoreLabels[0], 1.0);
  }

  /** A computed overall score always gets a real decision. */
  lemma {:induction false} ComputedScoreHasDecision(s: real, p: real, c: real)
    ensures InterpretScore(ComputeFinalScore(s, p, c)) != "Unknown"
  {
  }

  // ---------------------------------------------------------------- scoring node

  const DefaultScore: real := 2.5

  predicate ScoreKeys(m: map<string, real>) {
    m.Keys == {"soundness", "presentation", "contribution"}
  }

  /** The three scores of a well-formed reply: at least three comma-separated
      parts, the first three all numbers. */
  function ParsedTriple(response: string, parseFloat: string -> Option<real>): Option<(real, real, real)>
  {
    var parts := Split(Strip(response), ',');
    if |parts| < 3 then None
    else
      var s, p, c := parseFloat(Strip(parts[0])), parseFloat(Strip(parts[1])), parseFloat(Strip(parts[2]));
      if s.Some? && p.Some? && c.Some? then Some((s.value, p.value, c.value)) else None
  }

  /** The scoring node's parse of the reply "S,P,C" (`parseFloat` is Python's
      `float`, `None` standing for its ValueError). */
  function ParseScores(response: string, parseFloat: string -> Option<real>): map<string, real>
  {
    match ParsedTriple(response, parseFloat)
    case Some((s, p, c)) => map["soundness" := s, "presentation" := p, "contribution" := c]
    case None => map["soundness" := DefaultScore, "presentation" := DefaultScore, "contribution" := DefaultScore]
  }

  /** The parse always has the three keys: the three numbers when the reply is
      well formed, and 2.5 for all three otherwise (never a partial default). */
  lemma {:induction false} ParseScoresValues(response: string, parseFloat: string -> Option<real>)
    ensures ScoreKeys(ParseScores(response, parseFloat))
    ensures var parts := Split(Strip(response), ',');
      var r := ParseScores(response, parseFloat);
      if |parts| >= 3 && parseFloat(Strip(parts[0])).Some? && parseFloat(Strip(parts[1])).Some?
         && parseFloat(Strip(parts[2])).Some?
      then r["soundness"] == parseFloat(Strip(parts[0])).value
        && r["presentation"] == parseFloat(Strip(parts[1])).value
        && r["contribution"] == parseFloat(Strip(parts[2])).value
      else r["soundness"] == DefaultScore && r["presentation"] == DefaultScore && r["contribution"] == DefaultScore
  {
  }

  /** Parts after the third never influence the scores. */
  lemma {:induction false} ExtraPartsIgnored(a: string, b: string, parseFloat: string -> Option<real>)
    requires |Split(Strip(a), ',')| >= 3 && |Split(Strip(b), ',')| >= 3
    requires Split(Strip(a), ',')[..3] == Split(Strip(b), ',')[..3]
    ensures ParseScores(a, parseFloat) == ParseScores(b, parseFloat)
  {
    var pa, pb := Split(Strip(a), ','), Split(Strip(b), ',');
    assert pa[0] == pa[..3][0] && pa[1] == pa[..3][1] && pa[2] == pa[..3][2];
    assert pb[0] == pb[..3][0] && pb[1] == pb[..3][1] && pb[2] == pb[..3][2];
  }

  /** `[x.strip() for x in reply.strip().split("\n") if x.strip()]`. */
  function NonBlankLines(lines: seq<string>): (r: seq<string>)
    ensures |r| <= |lines|
  {
    if lines == [] then []
    else if Strip(lines[0]) == "" then NonBlankLines(lines[1..])
    else [Strip(lines[0])] + NonBlankLines(lines[1..])
  }

  /** Every kept line is non-empty and stripped, and no line is dropped when
      none is blank. */
  lemma {:induction false} NonBlankLinesClean(lines: seq<string>)
    ensures forall k :: 0 <= k < |NonBlankLines(lines)| ==>
      NonBlankLines(lines)[k] != "" && IsStripped(NonBlankLines(lines)[k])
    ensures (forall k :: 0 <= k < |lines| ==> Strip(lines[k]) != "") ==> |NonBlankLines(lines)| == |lines|
  {
    if lines != [] {
      StripProperties(lines[0]);
      NonBlankLinesClean(lines[1..]);
      if (forall k :: 0 <= k < |lines| ==> Strip(lines[k]) != "") {
        assert forall k :: 0 <= k < |lines[1..]| ==> Strip(lines[1..][k]) != "" by {
          forall k | 0 <= k < |lines[1..]| ensures Strip(lines[1..][k]) != "" {
            assert lines[1..][k] == lines[k + 1];
          }
        }
      }
    }
  }

  /** The lines of a reply, as the query, strength and weakness nodes keep them. */
  function ReplyLines(reply: string): seq<string>
  {
    NonBlankLines(Split(Strip(reply), '\n'))
  }

  // ---------------------------------------------------------------- workflow

  datatype Node =
    | PaperIntake
    | QueryGeneration
    | RelatedWorkSearch
    | StrengthIdentification
    | WeaknessAnalysis
    | Scoring
    | ReviewComposition

  /** The graph built by `_build_workflow`: a single chain from the entry point
      to END. Seven nodes are built (the class docstring speaks of nine). */
  const Chain: seq<Node> := [PaperIntake, QueryGeneration, RelatedWorkSearch,
                             StrengthIdentification, WeaknessAnalysis, Scoring, ReviewComposition]

  lemma {:induction false} ChainVisitsEachNodeOnce()
    ensures |Chain| == 7
    ensures forall j, k :: 0 <= j < k < |Chain| ==> Chain[j] != Chain[k]
    ensures forall n: Node :: n in Chain
  {
    forall n: Node ensures n in Chain {
      match n
      case PaperIntake => assert Chain[0] == n;
      case QueryGeneration => assert Chain[1] == n;
      case RelatedWorkSearch => assert Chain[2] == n;
      case StrengthIdentification => assert Chain[3] == n;
      case WeaknessAnalysis => assert Chain[4] == n;
      case Scoring => assert Chain[5] == n;
      case ReviewComposition => assert Chain[6] == n;
    }
  }

  /** What a language-model call gave: its reply text, or the message of the
      exception it raised. */
  datatype LlmOutcome = Reply(content: string) | Raised(message: string)

  /** The outcomes of the model calls of one workflow run, one per calling node. */
  datatype Replies = Replies(
    intake: LlmOutcome,
    queryGeneration: LlmOutcome,
    strengthIdentification: LlmOutcome,
    weaknessAnalysis: LlmOutcome,
    scoring: LlmOutcome,
    reviewComposition: LlmOutcome)

  /** The outcome of node `n`'s model call (the search node makes none). */
  function ReplyOf(llm: Replies, n: Node): LlmOutcome {
    match n
    case PaperIntake => llm.intake
    case QueryGeneration => llm.queryGeneration
    case RelatedWorkSearch => Reply("")
    case StrengthIdentification => llm.strengthIdentification
    case WeaknessAnalysis => llm.weaknessAnalysis
    case Scoring => llm.scoring
    case ReviewComposition => llm.reviewComposition
  }

  /** The reply text of an outcome ("" for a raised call, which no node reads). */
  function ReplyText(o: LlmOutcome): string { if o.Reply? then o.content else "" }

  /** Whether the node calls the language model (every node but the search). */
  predicate CallsLlm(n: Node) { n != RelatedWorkSearch }

  /** One search result as the search service returned it; absent keys are `None`. */
  datatype SearchHit = SearchHit(title: Option<string>, url: Option<string>, content: Option<string>)

  /** A related-work entry as the search node stores it in the state. */
  datatype WorkEntry = WorkEntry(title: string, url: string, content: string)

  function OrEmpty(o: Option<string>): string { if o.Some? then o.value else "" }

  /** `{"title": r.get("title", ""), "url": r.get("url", ""), "content": r.get("content", "")}`
      for each hit, in order. */
  function Entries(hits: seq<SearchHit>): (r: seq<WorkEntry>)
    ensures |r| == |hits|
    ensures forall k :: 0 <= k < |r| ==>
      r[k] == WorkEntry(OrEmpty(hits[k].title), OrEmpty(hits[k].url), OrEmpty(hits[k].content))
  {
    if hits == [] then [] else [WorkEntry(OrEmpty(hits[0].title), OrEmpty(hits[0].url), OrEmpty(hits[0].content))] + Entries(hits[1..])
  }

  /** The works the search node collects: the hits of the first three queries,
      in order, up to the first search that raised (`None`); nothing without an
      API key. */
  function CollectedWorks(key: Option<string>, searches: seq<Option<seq<SearchHit>>>, nQueries: nat): (r: seq<WorkEntry>)
    ensures key.None? || key.value == "" ==> r == []
  {
    if key.None? || key.value == "" then [] else Collected(searches, 0, if nQueries < 3 then nQueries else 3)
  }

  /** The hits of searches `i` to `n - 1`, stopping at the first that raised. */
  function Collected(searches: seq<Option<seq<SearchHit>>>, i: nat, n: nat): seq<WorkEntry>
    decreases n - i
  {
    if n <= i || |searches| <= i || searches[i].None? then []
    else Entries(searches[i].value) + Collected(searches, i + 1, n)
  }

  lemma {:induction false} CollectedUpToRaised(searches: seq<Option<seq<SearchHit>>>, i: nat, n: nat, j: nat)
    requires i <= j < |searches| && searches[j].None?
    ensures Collected(searches, i, n) == Collected(searches[..j], i, n)
    decreases j - i
  {
    if i < j && i < n {
      assert searches[..j][i] == searches[i];
      if searches[i].Some? {
        CollectedUpToRaised(searches, i + 1, n, j);
      }
    }
  }

  lemma {:induction false} CollectedBelow(searches: seq<Option<seq<SearchHit>>>, i: nat, n: nat)
    requires n <= |searches|
    ensures Collected(searches, i, n) == Collected(searches[..n], i, n)
    decreases n - i
  {
    if i < n {
      assert searches[..n][i] == searches[i];
      if searches[i].Some? {
        CollectedBelow(searches, i + 1, n);
      }
    }
  }

  /** A search that raised ends the collection: nothing from it or from the
      searches after it is kept. */
  lemma {:induction false} RaisedSearchEndsCollection(key: Option<string>, searches: seq<Option<seq<SearchHit>>>,
                                                      nQueries: nat, j: nat)
    requires j < |searches| && searches[j].None?
    ensures CollectedWorks(key, searches, nQueries) == CollectedWorks(key, searches[..j], nQueries)
  {
    CollectedUpToRaised(searches, 0, if nQueries < 3 then nQueries else 3, j);
  }

  /** Only the searches of the first three queries matter. */
  lemma {:induction false} FirstThreeQueriesOnly(key: Option<string>, searches: seq<Option<seq<SearchHit>>>, nQueries: nat)
    requires |searches| >= 3
    ensures CollectedWorks(key, searches, nQueries) == CollectedWorks(key, searches[..3], nQueries)
  {
    var n := if nQueries < 3 then nQueries else 3;
    CollectedBelow(searches, 0, n);
    CollectedBelow(searches[..3], 0, n);
    assert searches[..3][..n] == searches[..n];
  }

  /** With a key, the first query's search that succeeded contributes its
      hits first, in order. */
  lemma {:induction false} FirstSearchFirst(key: Option<string>, searches: seq<Option<seq<SearchHit>>>, nQueries: nat)
    requires key.Some? && key.value != "" && nQueries >= 1 && |searches| >= 1 && searches[0].Some?
    ensures var r := CollectedWorks(key, searches, nQueries);
      |searches[0].value| <= |r| && r[..|searches[0].value|] == Entries(searches[0].value)
  {
    var n := if nQueries < 3 then nQueries else 3;
    var e := Entries(searches[0].value);
    assert CollectedWorks(key, searches, nQueries) == e + Collected(searches, 1, n);
    assert (e + Collected(searches, 1, n))[..|e|] == e;
  }

  /** The contents of the shared state dict, as a value. */
  datatype StateValue = StateValue(
    paperText: string,
    venue: string,
    title: string,
    searchQueries: seq<string>,
    relatedWorks: seq<WorkEntry>,
    strengths: seq<string>,
    weaknesses: seq<string>,
    reviewText: string,
    scores: map<string, real>)

  /** What node `n` does to the state when it did not raise; `reply` is its
      model's reply (the search node makes no model call and ignores it). */
  function Step(n: Node, st: StateValue, reply: string, parseFloat: string -> Option<real>,
                key: Option<string>, searches: seq<Option<seq<SearchHit>>>): (r: StateValue)
    ensures r.paperText == st.paperText && r.venue == st.venue
  {
    match n
    case PaperIntake => st.(title := Strip(reply))
    case QueryGeneration => st.(searchQueries := ReplyLines(reply))
    case RelatedWorkSearch => st.(relatedWorks := CollectedWorks(key, searches, |st.searchQueries|))
    case StrengthIdentification => st.(strengths := ReplyLines(reply))
    case WeaknessAnalysis => st.(weaknesses := ReplyLines(reply))
    case Scoring => st.(scores := ParseScores(reply, parseFloat))
    case ReviewComposition => st.(reviewText := reply)
  }

  /** The state after running the first `k` nodes of the chain from `st`, none
      of them raising. */
  function RunPrefix(st: StateValue, llm: Replies, parseFloat: string -> Option<real>, key: Option<string>,
                     searches: seq<Option<seq<SearchHit>>>, k: nat): StateValue
    requires k <= |Chain|
  {
    if k == 0 then st
    else Step(Chain[k - 1], RunPrefix(st, llm, parseFloat, key, searches, k - 1),
              ReplyText(ReplyOf(llm, Chain[k - 1])), parseFloat, key, searches)
  }

  /** The first three nodes set the title, the queries and the works found for
      those queries. */
  lemma {:induction false} ChainHead(st: StateValue, llm: Replies, parseFloat: string -> Option<real>, key: Option<string>,
                  searches: seq<Option<seq<SearchHit>>>)
    ensures var queries := ReplyLines(ReplyText(llm.queryGeneration));
      RunPrefix(st, llm, parseFloat, key, searches, 3)
      == st.(title := Strip(ReplyText(llm.intake)), searchQueries := queries,
             relatedWorks := CollectedWorks(key, searches, |queries|))
  {
    assert Chain[0] == PaperIntake && Chain[1] == QueryGeneration && Chain[2] == RelatedWorkSearch;
    var s1 := RunPrefix(st, llm, parseFloat, key, searches, 1);
    var s2 := RunPrefix(st, llm, parseFloat, key, searches, 2);
    assert RunPrefix(st, llm, parseFloat, key, searches, 0) == st;
    assert s1 == st.(title := Strip(ReplyText(llm.intake)));
    assert s2 == s1.(searchQueries := ReplyLines(ReplyText(llm.queryGeneration)));
  }

  /** The state a run in which no node raised leaves behind: every field a node
      writes holds that node's result. */
  function FinalState(st: StateValue, llm: Replies, parseFloat: string -> Option<real>, key: Option<string>,
                      searches: seq<Option<seq<SearchHit>>>): StateValue
  {
    var queries := ReplyLines(ReplyText(llm.queryGeneration));
    st.(title := Strip(ReplyText(llm.intake)), searchQueries := queries,
        relatedWorks := CollectedWorks(key, searches, |queries|),
        strengths := ReplyLines(ReplyText(llm.strengthIdentification)),
        weaknesses := ReplyLines(ReplyText(llm.weaknessAnalysis)),
        scores := ParseScores(ReplyText(llm.scoring), parseFloat),
        reviewText := ReplyText(llm.reviewComposition))
  }

  /** The strength and weakness nodes set their lists and nothing else. */
  lemma {:induction false} ChainMiddle(st: StateValue, llm: Replies, parseFloat: string -> Option<real>, key: Option<string>,
                    searches: seq<Option<seq<SearchHit>>>)
    ensures RunPrefix(st, llm, parseFloat, key, searches, 5)
      == RunPrefix(st, llm, parseFloat, key, searches, 3).(
           strengths := ReplyLines(ReplyText(llm.strengthIdentification)),
           weaknesses := ReplyLines(ReplyText(llm.weaknessAnalysis)))
  {
    assert Chain[3] == StrengthIdentification && Chain[4] == WeaknessAnalysis;
    var s3 := RunPrefix(st, llm, parseFloat, key, searches, 3);
    var s4 := RunPrefix(st, llm, parseFloat, key, searches, 4);
    RunPrefixStep(st, llm, parseFloat, key, searches, 3);
    RunPrefixStep(st, llm, parseFloat, key, searches, 4);
    assert s4 == s3.(strengths := ReplyLines(ReplyText(llm.strengthIdentification)));
    assert RunPrefix(st, llm, parseFloat, key, searches, 5)
      == s4.(weaknesses := ReplyLines(ReplyText(llm.weaknessAnalysis)));
  }

  /** Running one node more applies that node's step. */
  lemma {:induction false} RunPrefixStep(st: StateValue, llm: Replies, parseFloat: string -> Option<real>, key: Option<string>,
                                         searches: seq<Option<seq<SearchHit>>>, k: nat)
    requires k < |Chain|
    ensures RunPrefix(st, llm, parseFloat, key, searches, k + 1)
      == Step(Chain[k], RunPrefix(st, llm, parseFloat, key, searches, k),
              ReplyText(ReplyOf(llm, Chain[k])), parseFloat, key, searches)
  {
  }

  /** The scoring and composition nodes set the scores and the review text and
      nothing else. */
  lemma {:induction false} ChainTail(st: StateValue, llm: Replies, parseFloat: string -> Option<real>, key: Option<string>,
                  searches: seq<Option<seq<SearchHit>>>)
    ensures RunPrefix(st, llm, parseFloat, key, searches, |Chain|)
      == RunPrefix(st, llm, parseFloat, key, searches, 5).(
           scores := ParseScores(ReplyText(llm.scoring), parseFloat),
           reviewText := ReplyText(llm.reviewComposition))
  {
    assert Chain[5] == Scoring && Chain[6] == ReviewComposition;
    var s5 := RunPrefix(st, llm, parseFloat, key, searches, 5);
    var s6 := RunPrefix(st, llm, parseFloat, key, searches, 6);
    RunPrefixStep(st, llm, parseFloat, key, searches, 5);
    RunPrefixStep(st, llm, parseFloat, key, searches, 6);
    assert s6 == s5.(scores := ParseScores(ReplyText(llm.scoring), parseFloat));
  }

  /** Running the whole chain gives `FinalState`: no node's write is undone by a
      later one, and the search saw the queries the query node produced. */
  lemma {:induction false} ChainResult(st: StateValue, llm: Replies, parseFloat: string -> Option<real>, key: Option<string>,
                    searches: seq<Option<seq<SearchHit>>>)
    ensures RunPrefix(st, llm, parseFloat, key, searches, |Chain|) == FinalState(st, llm, parseFloat, key, searches)
  {
    ChainHead(st, llm, parseFloat, key, searches);
    ChainMiddle(st, llm, parseFloat, key, searches);
    ChainTail(st, llm, parseFloat, key, searches);
  }

  /** The shared state dict that the nodes of the workflow update in turn. */
  class ReviewState {
    var paperText: string
    var venue: string
    var title: string
    var searchQueries: seq<string>
    var relatedWorks: seq<WorkEntry>
    var strengths: seq<string>
    var weaknesses: seq<string>
    var reviewText: string
    var scores: map<string, real>

    function Value(): StateValue
      reads this
    {
      StateValue(paperText, venue, title, searchQueries, relatedWorks, strengths, weaknesses, reviewText, scores)
    }

    constructor (paperText: string, venue: Option<string>, title: string)
      ensures Value() == StateValue(paperText, OrEmpty(venue), title, [], [], [], [], "", map[])
    {
      this.paperText := paperText;
      this.venue := OrEmpty(venue);
      this.title := title;
      searchQueries := [];
      relatedWorks := [];
      strengths := [];
      weaknesses := [];
      reviewText := "";
      scores := map[];
    }

    /** Runs one node. A node whose model call raised changes nothing and
        reports the exception's message. */
    method RunNode(n: Node, llm: Replies, key: Option<string>,
                   searches: seq<Option<seq<SearchHit>>>, parseFloat: string -> Option<real>)
      returns (failure: Option<string>)
      modifies this
      ensures failure.Some? <==> CallsLlm(n) && ReplyOf(llm, n).Raised?
      ensures failure.Some? ==> failure.value == ReplyOf(llm, n).message && Value() == old(Value())
      ensures failure.None? ==> Value() == Step(n, old(Value()), ReplyText(ReplyOf(llm, n)), parseFloat, key, searches)
    {
      var reply := ReplyOf(llm, n);
      if CallsLlm(n) && reply.Raised? {
        return Some(reply.message);
      }
      failure := None;
      match n {
        case PaperIntake => title := Strip(reply.content);
        case QueryGeneration => searchQueries := ReplyLines(reply.content);
        case RelatedWorkSearch => relatedWorks := SearchWorks(key, searches);
        case StrengthIdentification => strengths := ReplyLines(reply.content);
        case WeaknessAnalysis => weaknesses := ReplyLines(reply.content);
        case Scoring => scores := ParseScores(reply.content, parseFloat);
        case ReviewComposition => reviewText := reply.content;
      }
    }

    /** The search node's loop over the first three queries; a search that
        raises ends the loop and keeps what was collected before it. */
    method SearchWorks(key: Option<string>, searches: seq<Option<seq<SearchHit>>>) returns (works: seq<WorkEntry>)
      ensures works == CollectedWorks(key, searches, |searchQueries|)
    {
      works := [];
      if key.None? || key.value == "" {
        return;
      }
      var n := if |searchQueries| < 3 then |searchQueries| else 3;
      var i := 0;
      while i < n && i < |searches| && searches[i].Some?
        invariant 0 <= i <= n
        invariant works + Collected(searches, i, n) == Collected(searches, 0, n)
      {
        var found, rest := Entries(searches[i].value), Collected(searches, i + 1, n);
        assert Collected(searches, i, n) == found + rest;
        assert (works + found) + rest == works + (found + rest);
        works := works + found;
        i := i + 1;
      }
      assert Collected(searches, i, n) == [];
      assert works == works + Collected(searches, i, n);
    }
  }

  /** The position in the chain of the first node, from position `k` on, whose
      model call raised; `|Chain|` when none did. */
  function FirstRaised(llm: Replies, k: nat): (r: nat)
    requires k <= |Chain|
    ensures k <= r <= |Chain|
    ensures r < |Chain| ==> ReplyOf(llm, Chain[r]).Raised?
    decreases |Chain| - k
  {
    if k == |Chain| || ReplyOf(llm, Chain[k]).Raised? then k else FirstRaised(llm, k + 1)
  }

  /** Every node before the first one that raised replied. */
  lemma {:induction false} RepliedBeforeFirstRaised(llm: Replies, k: nat)
    requires k <= |Chain|
    ensures forall j :: k <= j < FirstRaised(llm, k) ==> ReplyOf(llm, Chain[j]).Reply?
    decreases |Chain| - k
  {
    if k < |Chain| && ReplyOf(llm, Chain[k]).Reply? {
      RepliedBeforeFirstRaised(llm, k + 1);
    }
  }

  /** None of `nodes` had its model call raise. */
  predicate Replied(llm: Replies, nodes: seq<Node>) {
    forall n :: n in nodes ==> ReplyOf(llm, n).Reply?
  }

  /** The run reaches the end of the chain exactly when no node raised. */
  lemma {:induction false} FirstRaisedReachesEnd(llm: Replies)
    ensures FirstRaised(llm, 0) == |Chain| <==> Replied(llm, Chain)
  {
    RepliedBeforeFirstRaised(llm, 0);
    if FirstRaised(llm, 0) == |Chain| {
      forall n | n in Chain ensures ReplyOf(llm, n).Reply? {
        var j :| 0 <= j < |Chain| && Chain[j] == n;
      }
    } else {
      assert Chain[FirstRaised(llm, 0)] in Chain;
    }
  }

  /** The message of the error raised when the graph libraries cannot be imported. */
  function MissingPackages(importMessage: string): (m: string)
    ensures StartsWith(m, "Required packages not installed: ")
  {
    "Required packages not installed: " + importMessage
      + ". Install with: pip install langgraph langchain-openai tavily-python"
  }

  /** The reviewer; it builds its workflow once and keeps it. */
  class PaperReviewer {
    var workflowBuilt: bool

    constructor ()
      ensures !workflowBuilt
    {
      workflowBuilt := false;
    }

    /** `_build_workflow`: a no-op once built; `importError` is the message of
        the ImportError raised when the graph libraries are missing. */
    method BuildWorkflow(importError: Option<string>) returns (err: Option<Error>)
      modifies this
      ensures old(workflowBuilt) ==> err.None? && workflowBuilt
      ensures !old(workflowBuilt) ==> (err.None? <==> importError.None?) && workflowBuilt == importError.None?
      ensures err.Some? ==> err.value == ReviewError(MissingPackages(importError.value))
    {
      if workflowBuilt {
        return None;
      }
      if importError.Some? {
        return Some(ReviewError(MissingPackages(importError.value)));
      }
      workflowBuilt := true;
      err := None;
    }

    /** Runs the chain on `state` node by node, in the order of `Chain`,
        stopping at the first node whose model call raised; `ran` counts the
        nodes run. */
    method RunWorkflow(state: ReviewState, llm: Replies, key: Option<string>,
                       searches: seq<Option<seq<SearchHit>>>, parseFloat: string -> Option<real>)
      returns (ran: nat, failure: Option<string>)
      modifies state
      ensures failure.None? <==> FirstRaised(llm, 0) == |Chain|
      ensures ran == if failure.None? then |Chain| else FirstRaised(llm, 0) + 1
      ensures failure.Some? ==> failure.value == ReplyOf(llm, Chain[ran - 1]).message
      ensures failure.None? ==> state.Value() == RunPrefix(old(state.Value()), llm, parseFloat, key, searches, |Chain|)
    {
      ghost var st0 := state.Value();
      var i := 0;
      while i < |Chain|
        invariant 0 <= i <= |Chain|
        invariant FirstRaised(llm, i) == FirstRaised(llm, 0)
        invariant state.Value() == RunPrefix(st0, llm, parseFloat, key, searches, i)
      {
        failure := state.RunNode(Chain[i], llm, key, searches, parseFloat);
        if failure.Some? {
          assert FirstRaised(llm, i) == i;
          return i + 1, failure;
        }
        assert !ReplyOf(llm, Chain[i]).Raised?;
        assert FirstRaised(llm, i + 1) == FirstRaised(llm, i);
        RunPrefixStep(st0, llm, parseFloat, key, searches, i);
        i := i + 1;
      }
      ran, failure := |Chain|, None;
    }

    /** `review`: builds the workflow, then runs it and assembles the peer
        review. */
    method Review(content: ExtractedContent, venue: Option<string>, importError: Option<string>,
                  llm: Replies, key: Option<string>,
                  searches: seq<Option<seq<SearchHit>>>, parseFloat: string -> Option<real>)
      returns (r: Result<PeerReview>)
      modifies this
      ensures !old(workflowBuilt) && importError.Some? ==> r == Err(ReviewError(MissingPackages(importError.value)))
      ensures old(workflowBuilt) || importError.None? ==> r == ReviewOutcome(llm, parseFloat, key, searches)
    {
      var err := BuildWorkflow(importError);
      if err.Some? {
        return Err(err.value);
      }
      r := Invoke(content, venue, llm, key, searches, parseFloat);
    }

    /** Runs the workflow from the initial state built from the paper; a node
        that raised becomes a ReviewError, otherwise the final state becomes
        the peer review. */
    method Invoke(content: ExtractedContent, venue: Option<string>, llm: Replies, key: Option<string>,
                  searches: seq<Option<seq<SearchHit>>>, parseFloat: string -> Option<real>)
      returns (r: Result<PeerReview>)
      ensures r == ReviewOutcome(llm, parseFloat, key, searches)
    {
      var state := new ReviewState(content.fullText, venue, content.title);
      ghost var st0 := state.Value();
      var ran, failure := RunWorkflow(state, llm, key, searches, parseFloat);
      if failure.Some? {
        return Err(ReviewError(GenerationFailed(failure.value)));
      }
      ChainResult(st0, llm, parseFloat, key, searches);
      r := Ok(AssembleReview(state.scores, state.strengths, state.weaknesses, state.relatedWorks, state.reviewText));
    }
  }

  /** What a run of the workflow gives: the error of the first node that
      raised, or the review assembled from the final state. */
  function ReviewOutcome(llm: Replies, parseFloat: string -> Option<real>, key: Option<string>,
                         searches: seq<Option<seq<SearchHit>>>): (r: Result<PeerReview>)
    ensures r.Ok? <==> Replied(llm, Chain)
    ensures r.Ok? ==> r.value == ReviewFromReplies(llm, parseFloat, key, searches)
    ensures r.Err? ==>
      exists n :: (n in Chain && CallsLlm(n) && ReplyOf(llm, n).Raised?
                   && r.error == ReviewError(GenerationFailed(ReplyOf(llm, n).message)))
  {
    FirstRaisedReachesEnd(llm);
    var k := FirstRaised(llm, 0);
    if k < |Chain| then
      assert Chain[k] in Chain;
      Err(ReviewError(GenerationFailed(ReplyOf(llm, Chain[k]).message)))
    else Ok(ReviewFromReplies(llm, parseFloat, key, searches))
  }

  /** The message of the ReviewError raised when a node fails. */
  function GenerationFailed(message: string): (m: string)
    ensures StartsWith(m, "Review generation failed: ") && EndsWith(m, message)
  {
    "Review generation failed: " + message
  }

  /** The review a run in which no node raised produces. */
  function ReviewFromReplies(llm: Replies, parseFloat: string -> Option<real>, key: Option<string>,
                             searches: seq<Option<seq<SearchHit>>>): PeerReview
  {
    AssembleReview(ParseScores(ReplyText(llm.scoring), parseFloat),
                   ReplyLines(ReplyText(llm.strengthIdentification)),
                   ReplyLines(ReplyText(llm.weaknessAnalysis)),
                   CollectedWorks(key, searches, |ReplyLines(ReplyText(llm.queryGeneration))|),
                   ReplyText(llm.reviewComposition))
  }

  /** `scores.get(key, 2.5)`. */
  function ScoreOr(scores: map<string, real>, key: string): (r: real)
    ensures key in scores ==> r == scores[key]
    ensures key !in scores ==> r == DefaultScore
  {
    if key in scores then scores[key] else DefaultScore
  }

  function RelatedWorks(works: seq<WorkEntry>): (r: seq<RelatedWork>)
    ensures |r| == |works|
    ensures forall k :: 0 <= k < |works| ==>
      r[k] == RelatedWork(works[k].title, [], Some(works[k].url), works[k].content)
  {
    if works == [] then [] else [RelatedWork(works[0].title, [], Some(works[0].url), works[0].content)] + RelatedWorks(works[1..])
  }

  /** The peer review built from the final state: the dimension scores as
      given (not clamped to [1, 4]), each with its constant weight, the clamped
      overall score, confidence 3 and no suggestions. */
  function AssembleReview(scores: map<string, real>, strengths: seq<string>, weaknesses: seq<string>,
                          works: seq<WorkEntry>, reviewText: string): (r: PeerReview)
    ensures |r.dimensions| == 3
    ensures r.dimensions[0] == ("soundness", DimensionScore("Soundness", ScoreOr(scores, "soundness"), WeightSoundness, "Technical correctness assessment"))
    ensures r.dimensions[1] == ("presentation", DimensionScore("Presentation", ScoreOr(scores, "presentation"), WeightPresentation, "Writing clarity assessment"))
    ensures r.dimensions[2] == ("contribution", DimensionScore("Contribution", ScoreOr(scores, "contribution"), WeightContribution, "Significance and novelty assessment"))
    ensures r.overallScore == ComputeFinalScore(r.dimensions[0].1.score, r.dimensions[1].1.score, r.dimensions[2].1.score)
    ensures 1.0 <= r.overallScore <= 10.0
    ensures r.confidence == 3.0 && r.suggestions == []
    ensures r.strengths == strengths && r.weaknesses == weaknesses && r.rawReview == reviewText
    ensures |r.relatedWorks| == |works|
  {
    var s, p, c := ScoreOr(scores, "soundness"), ScoreOr(scores, "presentation"), ScoreOr(scores, "contribution");
    PeerReview(
      ComputeFinalScore(s, p, c),
      3.0,
      [("soundness", DimensionScore("Soundness", s, WeightSoundness, "Technical correctness assessment")),
       ("presentation", DimensionScore("Presentation", p, WeightPresentation, "Writing clarity assessment")),
       ("contribution", DimensionScore("Contribution", c, WeightContribution, "Significance and novelty assessment"))],
      strengths, weaknesses, [], RelatedWorks(works), reviewText)
  }

  /** A review assembled from a state the scoring node wrote never falls back to
      the per-key default, and its decision is never "Unknown". */
  lemma {:induction false} AssembledScoresComeFromScoring(response: string, parseFloat: string -> Option<real>,
                                       strengths: seq<string>, weaknesses: seq<string>,
                                       works: seq<WorkEntry>, text: string)
    ensures var scores := ParseScores(response, parseFloat);
      var r := AssembleReview(scores, strengths, weaknesses, works, text);
      r.dimensions[0].1.score == scores["soundness"] && r.dimensions[1].1.score == scores["presentation"]
      && r.dimensions[2].1.score == scores["contribution"]
      && InterpretScore(r.overallScore) != "Unknown"
  {
    ParseScoresValues(response, parseFloat);
  }
}
