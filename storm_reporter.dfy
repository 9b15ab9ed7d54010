/** `storm_reporter.py`: the retrieval corpus built from a paper's extracted
    content (`_build_chunks`) and the ranking retriever over it
    (`PaperContentRM.forward`). The STORM runner, the language models and
    the reading of STORM's output files are not part of this model. */
module StormReporter {
  import opened Text
  import opened Models

  /** A retrieval chunk, and also a retrieved result: `url`, `description`
      and `snippets`. */
  datatype Chunk = Chunk(url: string, description: string, snippets: seq<string>)

  // ---------------------------------------------------------------- chunks

  /** `paper://` and the title with spaces turned into `-`, lower-cased. */
  function Base(title: string): string { "paper://" + Lower(ReplaceChar(title, ' ', '-')) }

  /** A section's URL: the base, `/`, and the lower-cased title with spaces
      turned into `-`. */
  function SectionUrl(base: string, title: string): string { base + "/" + ReplaceChar(Lower(title), ' ', '-') }

  function AbstractChunks(base: string, abstractText: string): seq<Chunk> {
    if abstractText == [] then [] else [Chunk(base + "/abstract", "Abstract", [abstractText])]
  }

  /** The chunk of one section: its stripped body cut at 2000 characters. */
  function SectionChunk(base: string, section: Section): Chunk {
    Chunk(SectionUrl(base, section.title), section.title, [Take(Strip(section.content), 2000)])
  }

  /** One chunk per section whose stripped content is not empty, in order. */
  function SectionChunks(base: string, sections: seq<Section>): (r: seq<Chunk>)
    ensures |r| <= |sections|
  {
    if sections == [] then []
    else
      var last := sections[|sections| - 1];
      SectionChunks(base, sections[..|sections| - 1]) + (if Strip(last.content) != [] then [SectionChunk(base, last)] else [])
  }

  /** `eq.label or eq.id`. */
  function EquationName(eq: Equation): string {
    if eq.eqLabel.Some? && eq.eqLabel.value != [] then eq.eqLabel.value else eq.id
  }

  /** The lines `<name>: <description>` of the display equations that have a
      description, in order. */
  function EquationLines(eqs: seq<Equation>): (r: seq<string>)
    ensures |r| <= |eqs|
  {
    if eqs == [] then []
    else
      var eq := eqs[|eqs| - 1];
      EquationLines(eqs[..|eqs| - 1])
      + (if eq.description != [] && !eq.isInline then [EquationName(eq) + ": " + eq.description] else [])
  }

  function EquationChunks(base: string, eqs: seq<Equation>): seq<Chunk> {
    var lines := EquationLines(eqs);
    if lines == [] then []
    else [Chunk(base + "/equations", "Key Equations and Mathematical Formulations", [Join(Take(lines, 15), "\n")])]
  }

  function ReferenceTexts(refs: seq<Reference>): (r: seq<string>)
    ensures |r| == |refs| && forall i :: 0 <= i < |refs| ==> r[i] == refs[i].text
  {
    seq(|refs|, i requires 0 <= i < |refs| => refs[i].text)
  }

  /** The texts of the first 30 references, of which the first 10 are kept. */
  function ReferenceChunks(base: string, refs: seq<Reference>): seq<Chunk> {
    var texts := ReferenceTexts(Take(refs, 30));
    if texts == [] then [] else [Chunk(base + "/references", "Bibliography and References", Take(texts, 10))]
  }

  /** The chunks of `_build_chunks`, in order: abstract, sections, equations,
      references. */
  function PaperChunks(content: ExtractedContent): seq<Chunk> {
    var base := Base(content.title);
    AbstractChunks(base, content.abstractText) + SectionChunks(base, content.sections)
    + EquationChunks(base, content.equations) + ReferenceChunks(base, content.references)
  }

  /** `_build_chunks`. */
  method BuildChunks(content: ExtractedContent) returns (chunks: seq<Chunk>)
    ensures chunks == PaperChunks(content)
  {
    var base := Base(content.title);
    chunks := AbstractChunks(base, content.abstractText);
    ghost var head := chunks;
    var sections := content.sections;
    for i := 0 to |sections|
      invariant chunks == head + SectionChunks(base, sections[..i])
    {
      assert sections[..i + 1][..i] == sections[..i];
      var body := Strip(sections[i].content);
      if body != [] {
        chunks := chunks + [Chunk(SectionUrl(base, sections[i].title), sections[i].title, [Take(body, 2000)])];
      }
    }
    assert sections[..|sections|] == sections;
    chunks := chunks + EquationChunks(base, content.equations);
    chunks := chunks + ReferenceChunks(base, content.references);
  }

  /** The sections that give a chunk: those whose stripped content is not
      empty. */
  function NonBlank(sections: seq<Section>): (r: seq<Section>)
    ensures |r| <= |sections|
  {
    if sections == [] then []
    else
      var last := sections[|sections| - 1];
      NonBlank(sections[..|sections| - 1]) + (if Strip(last.content) != [] then [last] else [])
  }

  /** Section chunks are exactly the non-blank sections, in order, each with
      a single snippet of at most 2000 characters that opens its stripped
      body. */
  lemma {:induction false} SectionChunksShape(base: string, sections: seq<Section>)
    ensures var r, kept := SectionChunks(base, sections), NonBlank(sections);
      && |r| == |kept|
      && forall i :: 0 <= i < |r| ==>
           && r[i].description == kept[i].title && r[i].url == SectionUrl(base, kept[i].title)
           && |r[i].snippets| == 1 && |r[i].snippets[0]| <= 2000
           && |r[i].snippets[0]| <= |Strip(kept[i].content)|
           && r[i].snippets[0] == Strip(kept[i].content)[..|r[i].snippets[0]|]
           && Strip(kept[i].content) != []
    decreases |sections|
  {
    if sections != [] {
      SectionChunksShape(base, sections[..|sections| - 1]);
    }
  }

  /** A section whose content is blank adds no chunk. */
  lemma {:induction false} BlankSectionExcluded(base: string, sections: seq<Section>, blank: Section)
    requires AllSpace(blank.content)
    ensures SectionChunks(base, sections + [blank]) == SectionChunks(base, sections)
  {
    StripProperties(blank.content);
    assert (sections + [blank])[..|sections|] == sections;
  }

  /** Every chunk's URL is under the paper's base URL. */
  lemma {:induction false} ChunkUrls(content: ExtractedContent)
    ensures forall c :: c in PaperChunks(content) ==> StartsWith(c.url, Base(content.title) + "/")
  {
    var base := Base(content.title);
    SectionUrlsUnderBase(base, content.sections);
    FixedUrlsUnderBase(base, content.abstractText, content.equations, content.references);
    var a, s := AbstractChunks(base, content.abstractText), SectionChunks(base, content.sections);
    var e, r := EquationChunks(base, content.equations), ReferenceChunks(base, content.references);
    assert PaperChunks(content) == a + s + e + r;
  }

  lemma {:induction false} FixedUrlsUnderBase(base: string, abstractText: string, eqs: seq<Equation>, refs: seq<Reference>)
    ensures var fixed := AbstractChunks(base, abstractText) + EquationChunks(base, eqs) + ReferenceChunks(base, refs);
      forall c :: c in fixed ==> StartsWith(c.url, base + "/")
  {
    assert base + "/abstract" == (base + "/") + "abstract";
    assert base + "/equations" == (base + "/") + "equations";
    assert base + "/references" == (base + "/") + "references";
  }

  lemma {:induction false} SectionUrlsUnderBase(base: string, sections: seq<Section>)
    ensures forall c :: c in SectionChunks(base, sections) ==> StartsWith(c.url, base + "/")
    decreases |sections|
  {
    if sections != [] {
      SectionUrlsUnderBase(base, sections[..|sections| - 1]);
      var last := sections[|sections| - 1];
      var u := SectionUrl(base, last.title);
      assert u == (base + "/") + ReplaceChar(Lower(last.title), ' ', '-');
      assert u[..|base + "/"|] == base + "/";
    }
  }

  /** The equation chunk holds one snippet joining at most 15 lines, each from
      a display equation with a description; the reference chunk holds at
      most 10 reference texts, the first ones. */
  lemma {:induction false} SnippetBounds(base: string, eqs: seq<Equation>, refs: seq<Reference>)
    ensures |EquationChunks(base, eqs)| <= 1 && |ReferenceChunks(base, refs)| <= 1
    ensures EquationChunks(base, eqs) != [] ==>
      var lines := Take(EquationLines(eqs), 15);
      && |lines| <= 15 && EquationChunks(base, eqs)[0].snippets == [Join(lines, "\n")]
      && forall i :: 0 <= i < |lines| ==> lines[i] in EquationLines(eqs)
    ensures ReferenceChunks(base, refs) != [] ==>
      var snippets := ReferenceChunks(base, refs)[0].snippets;
      && |snippets| <= 10 && |snippets| == (if |refs| < 10 then |refs| else 10)
      && forall i :: 0 <= i < |snippets| ==> snippets[i] == refs[i].text
    ensures forall l :: l in EquationLines(eqs) ==> exists eq :: eq in eqs && !eq.isInline && eq.description != []
                                                         && l == EquationName(eq) + ": " + eq.description
  {
    EquationLinesFrom(eqs);
  }

  lemma {:induction false} EquationLinesFrom(eqs: seq<Equation>)
    ensures forall l :: l in EquationLines(eqs) ==> exists eq :: eq in eqs && !eq.isInline && eq.description != []
                                                         && l == EquationName(eq) + ": " + eq.description
    decreases |eqs|
  {
    if eqs != [] {
      var init := eqs[..|eqs| - 1];
      EquationLinesFrom(init);
      forall l | l in EquationLines(eqs)
        ensures exists eq :: eq in eqs && !eq.isInline && eq.description != [] && l == EquationName(eq) + ": " + eq.description
      {
        if l in EquationLines(init) {
          var eq :| eq in init && !eq.isInline && eq.description != [] && l == EquationName(eq) + ": " + eq.description;
          assert eq in eqs;
        } else {
          assert eqs[|eqs| - 1] in eqs;
        }
      }
    }
  }

  // ------------------------------------------------------------- retrieval

  /** `word in text.lower()` for the description or some snippet. */
  predicate Matches(word: string, chunk: Chunk) {
    Contains(Lower(chunk.description), word) || exists s :: s in chunk.snippets && Contains(Lower(s), word)
  }

  /** The number of query words (with repetition) that a chunk matches. */
  function Score(words: seq<string>, chunk: Chunk): (n: nat)
    ensures n <= |words|
  {
    if words == [] then 0 else (if Matches(words[0], chunk) then 1 else 0) + Score(words[1..], chunk)
  }

  /** A chunk scores every word exactly when it matches them all, and zero
      exactly when it matches none. */
  lemma {:induction false} ScoreExtremes(words: seq<string>, chunk: Chunk)
    ensures Score(words, chunk) == |words| <==> forall k :: 0 <= k < |words| ==> Matches(words[k], chunk)
    ensures Score(words, chunk) == 0 <==> forall k :: 0 <= k < |words| ==> !Matches(words[k], chunk)
  {
    if words != [] {
      ScoreExtremes(words[1..], chunk);
      assert forall k :: 1 <= k < |words| ==> words[k] == words[1..][k - 1];
    }
  }

  datatype Scored = Scored(score: nat, chunk: Chunk)

  /** The scored chunks of one query: those whose URL is not yet seen, in
      corpus order. */
  function Candidates(chunks: seq<Chunk>, seen: set<string>, words: seq<string>): (r: seq<Scored>)
    ensures |r| <= |chunks|
    ensures forall x :: x in r ==> x.chunk in chunks && x.chunk.url !in seen && x.score == Score(words, x.chunk)
  {
    if chunks == [] then []
    else
      var c := chunks[|chunks| - 1];
      Candidates(chunks[..|chunks| - 1], seen, words) + (if c.url in seen then [] else [Scored(Score(words, c), c)])
  }

  /** Places `x`, which came before every element of `t`, ahead of the
      elements of `t` that do not score more than it. */
  function Insert(x: Scored, t: seq<Scored>): (r: seq<Scored>)
    ensures multiset(r) == multiset(t) + multiset{x}
  {
    if t == [] then [x]
    else
      assert t == [t[0]] + t[1..];
      if t[0].score > x.score then [t[0]] + Insert(x, t[1..]) else [x] + t
  }

  /** `sorted(key=score, reverse=True)`, which Python keeps stable. */
  function SortByScore(s: seq<Scored>): (r: seq<Scored>)
    ensures multiset(r) == multiset(s)
  {
    if s == [] then [] else
      assert s == [s[0]] + s[1..];
      Insert(s[0], SortByScore(s[1..]))
  }

  predicate Descending(s: seq<Scored>) { forall i, j :: 0 <= i < j < |s| ==> s[i].score >= s[j].score }

  /** The elements of `s` with score `v`, in order. */
  function WithScore(s: seq<Scored>, v: nat): (r: seq<Scored>) {
    if s == [] then [] else (if s[0].score == v then [s[0]] else []) + WithScore(s[1..], v)
  }

  lemma {:induction false} InsertDescending(x: Scored, t: seq<Scored>)
    requires Descending(t)
    ensures Descending(Insert(x, t))
    decreases |t|
  {
    if t != [] && t[0].score > x.score {
      InsertDescending(x, t[1..]);
      var r := Insert(x, t[1..]);
      forall j | 0 <= j < |r| ensures r[j].score <= t[0].score {
        assert r[j] in multiset(r);
        if r[j] != x {
          assert r[j] in multiset(t[1..]);
          var m :| 0 <= m < |t[1..]| && t[1..][m] == r[j];
          assert t[m + 1] == r[j];
        }
      }
    }
  }

  lemma {:induction false} InsertStable(x: Scored, t: seq<Scored>, v: nat)
    ensures WithScore(Insert(x, t), v) == WithScore([x], v) + WithScore(t, v)
    decreases |t|
  {
    if t != [] && t[0].score > x.score {
      InsertStable(x, t[1..], v);
      assert [t[0]] + Insert(x, t[1..]) == Insert(x, t);
      assert ([t[0]] + Insert(x, t[1..]))[1..] == Insert(x, t[1..]);
    } else if t != [] {
      assert ([x] + t)[1..] == t;
    }
  }

  /** The sort orders by descending score, keeps every element, and keeps
      the original order among elements of equal score. */
  lemma {:induction false} SortByScoreCorrect(s: seq<Scored>)
    ensures Descending(SortByScore(s)) && multiset(SortByScore(s)) == multiset(s)
    ensures forall v: nat :: WithScore(SortByScore(s), v) == WithScore(s, v)
  {
    SortDescending(s);
    forall v: nat ensures WithScore(SortByScore(s), v) == WithScore(s, v) {
      SortStable(s, v);
    }
  }

  lemma {:induction false} SortDescending(s: seq<Scored>)
    ensures Descending(SortByScore(s))
    decreases |s|
  {
    if s != [] {
      SortDescending(s[1..]);
      InsertDescending(s[0], SortByScore(s[1..]));
    }
  }

  lemma {:induction false} SortStable(s: seq<Scored>, v: nat)
    ensures WithScore(SortByScore(s), v) == WithScore(s, v)
    decreases |s|
  {
    if s != [] {
      var t := SortByScore(s[1..]);
      SortStable(s[1..], v);
      InsertStable(s[0], t, v);
      assert SortByScore(s) == Insert(s[0], t);
      assert WithScore([s[0]], v) == (if s[0].score == v then [s[0]] else []) by {
        assert [s[0]][1..] == [];
      }
    }
  }

  /** What a query has selected: `scored[:k]` after the sort. */
  function TopK(chunks: seq<Chunk>, seen: set<string>, query: string, k: int): seq<Scored> {
    SliceTo(SortByScore(Candidates(chunks, seen, Words(Lower(query)))), k)
  }

  /** The URLs seen so far and the results gathered so far. */
  datatype Retrieval = Retrieval(seen: set<string>, results: seq<Chunk>)

  /** Admits the selected chunks in order, skipping URLs already seen. */
  function Admit(st: Retrieval, top: seq<Scored>): Retrieval
    decreases |top|
  {
    if top == [] then st
    else
      var c := top[0].chunk;
      Admit(if c.url in st.seen then st else Retrieval(st.seen + {c.url}, st.results + [c]), top[1..])
  }

  function QueryStep(chunks: seq<Chunk>, k: int, st: Retrieval, query: string): Retrieval {
    Admit(st, TopK(chunks, st.seen, query, k))
  }

  function RunQueries(chunks: seq<Chunk>, k: int, st: Retrieval, queries: seq<string>): Retrieval
    decreases |queries|
  {
    if queries == [] then st else RunQueries(chunks, k, QueryStep(chunks, k, st, queries[0]), queries[1..])
  }

  /** A single query string or a list of them. */
  datatype Query = One(text: string) | Many(texts: seq<string>)

  function Queries(q: Query): seq<string> {
    match q
    case One(t) => [t]
    case Many(ts) => ts
  }

  /** `forward(query_or_queries, exclude_urls)` over a corpus, with `exclude`
      empty for `None`. */
  function Retrieve(chunks: seq<Chunk>, k: int, q: Query, exclude: seq<string>): seq<Chunk> {
    RunQueries(chunks, k, Retrieval(set u | u in exclude, []), Queries(q)).results
  }

  /** The loop over one query's candidates that scores them. */
  method ScoreCandidates(chunks: seq<Chunk>, seen: set<string>, words: seq<string>) returns (scored: seq<Scored>)
    ensures scored == Candidates(chunks, seen, words)
  {
    scored := [];
    for i := 0 to |chunks|
      invariant scored == Candidates(chunks[..i], seen, words)
    {
      assert chunks[..i + 1][..i] == chunks[..i];
      var chunk := chunks[i];
      if chunk.url in seen {
        continue;
      }
      scored := scored + [Scored(Score(words, chunk), chunk)];
    }
    assert chunks[..|chunks|] == chunks;
  }

  /** The loop that admits one query's selection. */
  method AdmitTop(st: Retrieval, top: seq<Scored>) returns (seen: set<string>, results: seq<Chunk>)
    ensures Retrieval(seen, results) == Admit(st, top)
  {
    seen, results := st.seen, st.results;
    for i := 0 to |top|
      invariant Admit(Retrieval(seen, results), top[i..]) == Admit(st, top)
    {
      assert top[i..][1..] == top[i + 1..];
      var chunk := top[i].chunk;
      if chunk.url !in seen {
        seen := seen + {chunk.url};
        results := results + [chunk];
      }
    }
  }

  /** `PaperContentRM.forward`. */
  method Forward(chunks: seq<Chunk>, k: int, q: Query, exclude: seq<string>) returns (results: seq<Chunk>)
    ensures results == Retrieve(chunks, k, q, exclude)
  {
    var queries := match q case One(t) => [t] case Many(ts) => ts;
    var seen := set u | u in exclude;
    ghost var start := Retrieval(seen, []);
    results := [];
    for i := 0 to |queries|
      invariant RunQueries(chunks, k, Retrieval(seen, results), queries[i..]) == RunQueries(chunks, k, start, queries)
    {
      assert queries[i..][1..] == queries[i + 1..];
      var scored := ScoreCandidates(chunks, seen, Words(Lower(queries[i])));
      var top := SliceTo(SortByScore(scored), k);
      seen, results := AdmitTop(Retrieval(seen, results), top);
    }
  }

  // ------------------------------------------------------- retrieval facts

  function Urls(rs: seq<Chunk>): set<string> { set c | c in rs :: c.url }

  predicate DistinctUrls(rs: seq<Chunk>) { forall i, j :: 0 <= i < j < |rs| ==> rs[i].url != rs[j].url }

  /** The seen set is the excluded URLs plus the URLs of the results; results
      come from the corpus, carry distinct URLs and none that was excluded. */
  predicate Consistent(chunks: seq<Chunk>, exclude: set<string>, st: Retrieval) {
    && st.seen == exclude + Urls(st.results)
    && DistinctUrls(st.results)
    && forall c :: c in st.results ==> c.url !in exclude && c in chunks
  }

  /** A query selects at most `k` chunks when `k` is not negative, each one
      from the corpus and not yet seen, and no unselected candidate scores
      more than a selected one. */
  lemma {:induction false} TopKShape(chunks: seq<Chunk>, seen: set<string>, query: string, k: int)
    ensures var top := TopK(chunks, seen, query, k);
      && (k >= 0 ==> |top| <= k)
      && (forall x :: x in top ==> x.chunk in chunks && x.chunk.url !in seen)
    ensures var all := SortByScore(Candidates(chunks, seen, Words(Lower(query))));
      var top := TopK(chunks, seen, query, k);
      && top == all[..|top|]
      && forall i, j :: 0 <= i < |top| <= j < |all| ==> all[i].score >= all[j].score
  {
    var cands := Candidates(chunks, seen, Words(Lower(query)));
    var all := SortByScore(cands);
    SortByScoreCorrect(cands);
    var top := TopK(chunks, seen, query, k);
    forall x | x in top ensures x.chunk in chunks && x.chunk.url !in seen {
      assert x in all;
      assert x in multiset(cands);
    }
  }

  lemma {:induction false} AdmitConsistent(chunks: seq<Chunk>, exclude: set<string>, st: Retrieval, top: seq<Scored>)
    requires Consistent(chunks, exclude, st)
    requires forall x :: x in top ==> x.chunk in chunks
    ensures Consistent(chunks, exclude, Admit(st, top))
    decreases |top|
  {
    if top != [] {
      var c := top[0].chunk;
      if c.url !in st.seen {
        var next := Retrieval(st.seen + {c.url}, st.results + [c]);
        assert Urls(next.results) == Urls(st.results) + {c.url};
        assert forall d :: d in next.results ==> d in st.results || d == c;
        assert forall i :: 0 <= i < |st.results| ==> st.results[i] in st.results;
        AdmitConsistent(chunks, exclude, next, top[1..]);
      } else {
        AdmitConsistent(chunks, exclude, st, top[1..]);
      }
    }
  }

  /** Admission only appends, and at most one result per selected chunk. */
  lemma {:induction false} AdmitAppends(st: Retrieval, top: seq<Scored>)
    ensures var r := Admit(st, top).results;
      |st.results| <= |r| <= |st.results| + |top| && r[..|st.results|] == st.results
    ensures top != [] && top[0].chunk.url !in st.seen ==> |Admit(st, top).results| > |st.results|
    decreases |top|
  {
    if top != [] {
      var c := top[0].chunk;
      var next := if c.url in st.seen then st else Retrieval(st.seen + {c.url}, st.results + [c]);
      AdmitAppends(next, top[1..]);
      assert next.results[..|st.results|] == st.results;
    }
  }

  lemma {:induction false} RunQueriesConsistent(chunks: seq<Chunk>, k: int, exclude: set<string>, st: Retrieval, queries: seq<string>)
    requires Consistent(chunks, exclude, st)
    ensures Consistent(chunks, exclude, RunQueries(chunks, k, st, queries))
    decreases |queries|
  {
    if queries != [] {
      TopKShape(chunks, st.seen, queries[0], k);
      AdmitConsistent(chunks, exclude, st, TopK(chunks, st.seen, queries[0], k));
      RunQueriesConsistent(chunks, k, exclude, QueryStep(chunks, k, st, queries[0]), queries[1..]);
    }
  }

  lemma {:induction false} RunQueriesBound(chunks: seq<Chunk>, k: nat, st: Retrieval, queries: seq<string>)
    ensures |RunQueries(chunks, k, st, queries).results| <= |st.results| + k * |queries|
    decreases |queries|
  {
    if queries != [] {
      var next := QueryStep(chunks, k, st, queries[0]);
      AdmitAppends(st, TopK(chunks, st.seen, queries[0], k));
      assert |next.results| <= |st.results| + k;
      RunQueriesBound(chunks, k, next, queries[1..]);
      MulSucc(k, |queries[1..]|);
    }
  }

  lemma MulSucc(k: nat, n: nat)
    ensures k * (n + 1) == k * n + k
  {}

  /** `forward` never returns an excluded URL or the same URL twice, returns
      only chunks of the corpus, and with `k >= 0` at most `k` results per
      query. */
  lemma {:induction false} RetrieveProperties(chunks: seq<Chunk>, k: int, q: Query, exclude: seq<string>)
    ensures var r := Retrieve(chunks, k, q, exclude);
      && DistinctUrls(r)
      && (forall c :: c in r ==> c in chunks && c.url !in exclude)
      && (k >= 0 ==> |r| <= k * |Queries(q)|)
  {
    var ex := set u | u in exclude;
    RunQueriesConsistent(chunks, k, ex, Retrieval(ex, []), Queries(q));
    if k >= 0 {
      RunQueriesBound(chunks, k, Retrieval(ex, []), Queries(q));
    }
  }

  /** With `k >= 1`, a query adds a result whenever some chunk of the corpus
      has a URL not yet seen. */
  lemma {:induction false} QueryProgress(chunks: seq<Chunk>, k: int, st: Retrieval, query: string, c: Chunk)
    requires k >= 1 && c in chunks && c.url !in st.seen
    ensures |QueryStep(chunks, k, st, query).results| > |st.results|
  {
    var words := Words(Lower(query));
    var cands := Candidates(chunks, st.seen, words);
    CandidateOf(chunks, st.seen, words, c);
    SortByScoreCorrect(cands);
    var all := SortByScore(cands);
    assert all != [] by {
      assert Scored(Score(words, c), c) in multiset(cands);
    }
    var top := TopK(chunks, st.seen, query, k);
    assert top[0] == all[0];
    assert all[0] in multiset(cands);
    AdmitAppends(st, top);
  }

  /** A plain string is one query: with `k >= 1` it returns between one and
      `k` results as soon as one chunk of the corpus is not excluded. */
  lemma {:induction false} SingleQuery(chunks: seq<Chunk>, k: int, query: string, exclude: seq<string>, c: Chunk)
    requires k >= 1 && c in chunks && c.url !in exclude
    ensures 1 <= |Retrieve(chunks, k, One(query), exclude)| <= k
  {
    var start := Retrieval(set u | u in exclude, []);
    QueryProgress(chunks, k, start, query, c);
    RetrieveProperties(chunks, k, One(query), exclude);
    assert [query][1..] == [];
    assert RunQueries(chunks, k, start, [query]) == RunQueries(chunks, k, QueryStep(chunks, k, start, query), []);
  }

  lemma {:induction false} CandidateOf(chunks: seq<Chunk>, seen: set<string>, words: seq<string>, c: Chunk)
    requires c in chunks && c.url !in seen
    ensures Scored(Score(words, c), c) in Candidates(chunks, seen, words)
    decreases |chunks|
  {
    var last := chunks[|chunks| - 1];
    if c != last {
      assert c in chunks[..|chunks| - 1] by {
        assert chunks == chunks[..|chunks| - 1] + [last];
      }
      CandidateOf(chunks[..|chunks| - 1], seen, words, c);
    }
  }
}
