/** The text side of `tts_engine.py`: the clean-up of the narration for
    speech (`_clean_for_speech`), the sentence splitting and chunk packing
    that feed the synthesiser (`_chunk_text`), and the narration script built
    from an analysis report (`build_narration`). The speech model itself is
    not part of this model. */
module TtsEngine {
  import opened Text
  import opened Models
  import opened Reviewer

  // ---------------------------------------------------------------- clean-up

  /** `re.sub(r"\$\$.*?\$\$", "", s, flags=re.DOTALL)` from position `i`: a
      `$$` with a later `$$` is removed up to and including the first such
      closer; an unclosed `$$` stays. */
  function DropDisplayMath(s: string, i: nat): (r: string)
    requires i <= |s|
    ensures |r| <= |s| - i
    decreases |s| - i
  {
    if i == |s| then []
    else if MatchAt(s, "$$", i) && IndexOf(s, "$$", i + 2).Some? then DropDisplayMath(s, IndexOf(s, "$$", i + 2).value + 2)
    else [s[i]] + DropDisplayMath(s, i + 1)
  }

  /** `re.sub(r"<o>[^<c>]+<c>", "", s)` from position `i`, for an opening
      character `o` and a closing character `c`: the opener, at least one
      character other than the closer, and the next closer are removed.
      Inline math `\$[^$]+\$` and HTML tags `<[^>]+>` have this shape. */
  function DropSpans(s: string, opener: char, closer: char, i: nat): (r: string)
    requires i <= |s|
    ensures |r| <= |s| - i
    decreases |s| - i
  {
    if i == |s| then []
    else if s[i] == opener && i + 1 < NextChar(s, closer, i + 1) < |s| then
      DropSpans(s, opener, closer, NextChar(s, closer, i + 1) + 1)
    else [s[i]] + DropSpans(s, opener, closer, i + 1)
  }

  /** `re.sub(r"\*{1,3}([^*]+)\*{1,3}", r"\1", s)` from position `i`: a run
      of one to three stars, text without stars and at least one star become
      the text; the closing run loses at most three stars. A run of more than
      three stars cannot open a match, since the text after the opener may not
      start with a star. */
  function DropEmphasis(s: string, i: nat): (r: string)
    requires i <= |s|
    ensures |r| <= |s| - i
    decreases |s| - i
  {
    if i == |s| then []
    else
      var a := SkipIn(s, {'*'}, i);
      var b := NextChar(s, '*', a);
      if i < a <= i + 3 && a < b < |s| then
        var c := SkipIn(s, {'*'}, b);
        s[a..b] + DropEmphasis(s, if c <= b + 3 then c else b + 3)
      else [s[i]] + DropEmphasis(s, i + 1)
  }

  /** `re.sub(r"\[([^\]]+)\]\([^)]+\)", r"\1", s)` from position `i`: a
      markdown link becomes its label. */
  function DropLinks(s: string, i: nat): (r: string)
    requires i <= |s|
    ensures |r| <= |s| - i
    decreases |s| - i
  {
    if i == |s| then []
    else
      var b := NextChar(s, ']', i + 1);
      if s[i] == '[' && i + 1 < b && b + 1 < |s| && s[b + 1] == '(' && b + 2 < NextChar(s, ')', b + 2) < |s| then
        s[i + 1..b] + DropLinks(s, NextChar(s, ')', b + 2) + 1)
      else [s[i]] + DropLinks(s, i + 1)
  }

  /** `re.sub(r"#{1,6}\s*", "", s)` from position `i`: up to six `#` and the
      whitespace after them are removed. */
  function DropHeadings(s: string, i: nat): (r: string)
    requires i <= |s|
    ensures |r| <= |s| - i
    decreases |s| - i
  {
    if i == |s| then []
    else if s[i] == '#' then
      var a := SkipIn(s, {'#'}, i);
      DropHeadings(s, SkipSpace(s, if a <= i + 6 then a else i + 6))
    else [s[i]] + DropHeadings(s, i + 1)
  }

  /** `re.sub(r"\s+", " ", s)` from position `i`: every run of whitespace
      becomes one space. */
  function CollapseSpace(s: string, i: nat): (r: string)
    requires i <= |s|
    ensures |r| <= |s| - i
    decreases |s| - i
  {
    if i == |s| then []
    else if IsSpace(s[i]) then [' '] + CollapseSpace(s, SkipSpace(s, i))
    else [s[i]] + CollapseSpace(s, i + 1)
  }

  /** `_clean_for_speech`: the six substitutions in their order, then the
      whitespace collapse and `strip`. */
  function CleanForSpeech(s: string): (r: string)
    ensures |r| <= |s|
  {
    var noDisplay := DropDisplayMath(s, 0);
    var noInline := DropSpans(noDisplay, '$', '$', 0);
    var noEmphasis := DropEmphasis(noInline, 0);
    var noLinks := DropLinks(noEmphasis, 0);
    var noHeadings := DropHeadings(noLinks, 0);
    var noTags := DropSpans(noHeadings, '<', '>', 0);
    Strip(CollapseSpace(noTags, 0))
  }

  /** The only whitespace is a single space between two other characters. */
  predicate SingleSpaced(s: string) {
    && (forall k :: 0 <= k < |s| && IsSpace(s[k]) ==> s[k] == ' ')
    && (forall k :: 0 <= k < |s| - 1 ==> !(IsSpace(s[k]) && IsSpace(s[k + 1])))
  }

  /** The characters of `s` that are not whitespace, in order. */
  function Visible(s: string): (r: string)
    ensures |r| <= |s|
  {
    if s == [] then [] else (if IsSpace(s[0]) then [] else [s[0]]) + Visible(s[1..])
  }

  lemma {:induction false} VisibleAppend(a: string, b: string)
    ensures Visible(a + b) == Visible(a) + Visible(b)
    decreases |a|
  {
    if a != [] {
      assert (a + b)[0] == a[0] && (a + b)[1..] == a[1..] + b;
      VisibleAppend(a[1..], b);
    } else {
      assert a + b == b;
    }
  }

  lemma {:induction false} VisibleAllSpace(s: string)
    requires AllSpace(s)
    ensures Visible(s) == []
    decreases |s|
  {
    if s != [] {
      VisibleAllSpace(s[1..]);
    }
  }

  /** The whitespace collapse keeps every other character, in order. */
  lemma {:induction false} CollapseSpaceVisible(s: string, i: nat)
    requires i <= |s|
    ensures Visible(CollapseSpace(s, i)) == Visible(s[i..])
    decreases |s| - i
  {
    if i < |s| {
      if IsSpace(s[i]) {
        CollapseSpaceVisible(s, SkipSpace(s, i));
        CollapseRunVisible(s, i);
      } else {
        CollapseSpaceVisible(s, i + 1);
        CollapseKeepVisible(s, i);
      }
    }
  }

  /** A run of whitespace becomes one space, which is not visible. */
  lemma {:induction false} CollapseRunVisible(s: string, i: nat)
    requires i < |s| && IsSpace(s[i])
    requires Visible(CollapseSpace(s, SkipSpace(s, i))) == Visible(s[SkipSpace(s, i)..])
    ensures Visible(CollapseSpace(s, i)) == Visible(s[i..])
  {
    var j := SkipSpace(s, i);
    assert s[i..] == s[i..j] + s[j..];
    VisibleAppend(s[i..j], s[j..]);
    VisibleAllSpace(s[i..j]);
    assert CollapseSpace(s, i) == [' '] + CollapseSpace(s, j);
    VisibleAppend([' '], CollapseSpace(s, j));
    assert Visible([' ']) == [];
  }

  /** Any other character is kept as it is. */
  lemma {:induction false} CollapseKeepVisible(s: string, i: nat)
    requires i < |s| && !IsSpace(s[i])
    requires Visible(CollapseSpace(s, i + 1)) == Visible(s[i + 1..])
    ensures Visible(CollapseSpace(s, i)) == Visible(s[i..])
  {
    assert s[i..] == [s[i]] + s[i + 1..];
    VisibleAppend([s[i]], s[i + 1..]);
    assert CollapseSpace(s, i) == [s[i]] + CollapseSpace(s, i + 1);
    VisibleAppend([s[i]], CollapseSpace(s, i + 1));
  }

  /** The whitespace collapse puts a plain space where whitespace was and
      never two in a row; it starts with a space only where the text did. */
  lemma {:induction false} CollapseSpaceSingle(s: string, i: nat)
    requires i <= |s|
    ensures SingleSpaced(CollapseSpace(s, i))
    ensures CollapseSpace(s, i) != [] && IsSpace(CollapseSpace(s, i)[0]) ==> IsSpace(s[i])
    decreases |s| - i
  {
    if i < |s| {
      var next := if IsSpace(s[i]) then SkipSpace(s, i) else i + 1;
      var rest := CollapseSpace(s, next);
      CollapseSpaceSingle(s, next);
      var r := CollapseSpace(s, i);
      assert r == [r[0]] + rest;
      forall k | 0 <= k < |r| - 1 ensures !(IsSpace(r[k]) && IsSpace(r[k + 1])) {
        if k > 0 {
          assert r[k] == rest[k - 1] && r[k + 1] == rest[k];
        }
      }
    }
  }

  /** Stripping only removes whitespace. */
  lemma {:induction false} StripVisible(s: string)
    ensures Visible(Strip(s)) == Visible(s)
  {
    var a, b := StripStart(s), StripEnd(s);
    StripIsSlice(s);
    assert s == s[..a] + s[a..b] + s[b..];
    assert AllSpace(s[..a]) && AllSpace(s[b..]);
    VisibleAppend(s[..a] + s[a..b], s[b..]);
    VisibleAppend(s[..a], s[a..b]);
    VisibleAllSpace(s[..a]);
    VisibleAllSpace(s[b..]);
  }

  /** The narration read aloud has no leading or trailing whitespace and no
      run of two whitespace characters, and every character of the
      substituted text that is not whitespace survives, in order. */
  lemma {:induction false} CleanForSpeechShape(s: string)
    ensures IsStripped(CleanForSpeech(s)) && SingleSpaced(CleanForSpeech(s))
    ensures Visible(CleanForSpeech(s))
            == Visible(DropSpans(DropHeadings(DropLinks(DropEmphasis(DropSpans(DropDisplayMath(s, 0), '$', '$', 0), 0), 0), 0), '<', '>', 0))
  {
    var t := DropSpans(DropHeadings(DropLinks(DropEmphasis(DropSpans(DropDisplayMath(s, 0), '$', '$', 0), 0), 0), 0), '<', '>', 0);
    var c := CollapseSpace(t, 0);
    CollapseSpaceVisible(t, 0);
    CollapseSpaceSingle(t, 0);
    assert t[0..] == t;
    StripProperties(c);
    StripVisible(c);
    StripSingleSpaced(c);
  }

  /** Stripping a single-spaced text keeps it single-spaced. */
  lemma {:induction false} StripSingleSpaced(c: string)
    requires SingleSpaced(c)
    ensures SingleSpaced(Strip(c))
  {
    var a := StripStart(c);
    StripIsSlice(c);
    var r := Strip(c);
    forall k | 0 <= k < |r| ensures r[k] == c[a + k] {
    }
  }

  // -------------------------------------------------- plain text is untouched

  lemma {:induction false} DropDisplayMathPlain(s: string, i: nat)
    requires i <= |s| && '$' !in s
    ensures DropDisplayMath(s, i) == s[i..]
    decreases |s| - i
  {
    if i < |s| {
      DropDisplayMathPlain(s, i + 1);
      assert s[i..] == [s[i]] + s[i + 1..];
    }
  }

  lemma {:induction false} DropSpansPlain(s: string, opener: char, closer: char, i: nat)
    requires i <= |s| && opener !in s
    ensures DropSpans(s, opener, closer, i) == s[i..]
    decreases |s| - i
  {
    if i < |s| {
      DropSpansPlain(s, opener, closer, i + 1);
      assert s[i..] == [s[i]] + s[i + 1..];
    }
  }

  lemma {:induction false} DropEmphasisPlain(s: string, i: nat)
    requires i <= |s| && '*' !in s
    ensures DropEmphasis(s, i) == s[i..]
    decreases |s| - i
  {
    if i < |s| {
      assert s[i] != '*';
      DropEmphasisPlain(s, i + 1);
      assert s[i..] == [s[i]] + s[i + 1..];
    }
  }

  lemma {:induction false} DropLinksPlain(s: string, i: nat)
    requires i <= |s| && '[' !in s
    ensures DropLinks(s, i) == s[i..]
    decreases |s| - i
  {
    if i < |s| {
      DropLinksPlain(s, i + 1);
      assert s[i..] == [s[i]] + s[i + 1..];
    }
  }

  lemma {:induction false} DropHeadingsPlain(s: string, i: nat)
    requires i <= |s| && '#' !in s
    ensures DropHeadings(s, i) == s[i..]
    decreases |s| - i
  {
    if i < |s| {
      DropHeadingsPlain(s, i + 1);
      assert s[i..] == [s[i]] + s[i + 1..];
    }
  }

  /** A text without math, emphasis, links, headings or tags only has its
      whitespace normalised. */
  lemma {:induction false} CleanPlainText(s: string)
    requires '$' !in s && '*' !in s && '[' !in s && '#' !in s && '<' !in s
    ensures CleanForSpeech(s) == Strip(CollapseSpace(s, 0))
  {
    assert s[0..] == s;
    DropDisplayMathPlain(s, 0);
    DropSpansPlain(s, '$', '$', 0);
    DropEmphasisPlain(s, 0);
    DropLinksPlain(s, 0);
    DropHeadingsPlain(s, 0);
    DropSpansPlain(s, '<', '>', 0);
  }

  // ---------------------------------------------------------------- chunks

  /** `MAX_CHUNK_CHARS`, the default chunk bound. */
  const MaxChunkChars: int := 500

  /** The sentence terminators of the split pattern's look-behind `[.!?]`. */
  const Terminators: set<char> := {'.', '!', '?'}

  /** Position `m` starts a separator of the sentence split: whitespace right
      after a terminator. */
  predicate SplitPoint(s: string, m: nat)
    requires 1 <= m < |s|
  {
    s[m - 1] in Terminators && IsSpace(s[m])
  }

  /** The first split point at or after `j`, or `|s|`. */
  function BreakAt(s: string, j: nat): (k: nat)
    requires 1 <= j <= |s|
    ensures j <= k <= |s|
    ensures k < |s| ==> SplitPoint(s, k)
    ensures forall m :: j <= m < k ==> !SplitPoint(s, m)
    decreases |s| - j
  {
    if j == |s| || SplitPoint(s, j) then j else BreakAt(s, j + 1)
  }

  /** `re.split(r"(?<=[.!?])\s+", s[i..])`: the pieces between the whitespace
      runs that follow a terminator. Their shape is stated by
      `SentencesShape`. */
  function SentencesFrom(s: string, i: nat): (r: seq<string>)
    requires i <= |s|
    ensures |r| >= 1
    decreases |s| - i
  {
    if i == |s| then [[]]
    else
      var j := BreakAt(s, i + 1);
      if j == |s| then [s[i..]]
      else [s[i..j]] + SentencesFrom(s, SkipSpace(s, j))
  }

  /** A piece closed by the split: it ends with a terminator. */
  predicate Terminated(p: string) {
    p != [] && p[|p| - 1] in Terminators
  }

  /** A piece after a split: the whitespace run was dropped, so it starts with
      a visible character, or is the empty piece left by trailing whitespace. */
  predicate Unpadded(p: string) {
    p == [] || !IsSpace(p[0])
  }

  /** The shape of a sentence split: every piece but the last is terminated,
      every piece but the first is unpadded. */
  predicate WellSplit(r: seq<string>) {
    && (forall k :: 0 <= k < |r| - 1 ==> Terminated(r[k]))
    && (forall k :: 0 < k < |r| ==> Unpadded(r[k]))
  }

  /** Every piece but the last ends with a terminator, and every piece after
      the first starts with a character that is not whitespace, or is the
      empty piece left by trailing whitespace. */
  lemma {:induction false} SentencesShape(s: string, i: nat)
    requires i <= |s|
    ensures WellSplit(SentencesFrom(s, i))
    decreases |s| - i
  {
    if i < |s| && BreakAt(s, i + 1) < |s| {
      var j := BreakAt(s, i + 1);
      var k := SkipSpace(s, j);
      SentencesShape(s, k);
      SentencesStep(s, i);
      PieceTerminated(s, i, j);
      FirstUnpadded(s, k);
      WellSplitCons(s[i..j], SentencesFrom(s, k));
    }
  }

  /** A split before the end closes a terminated piece and goes on past the
      whitespace run. */
  lemma SentencesStep(s: string, i: nat)
    requires i < |s| && BreakAt(s, i + 1) < |s|
    ensures var j := BreakAt(s, i + 1);
      SentencesFrom(s, i) == [s[i..j]] + SentencesFrom(s, SkipSpace(s, j))
  {
  }

  lemma PieceTerminated(s: string, i: nat, j: nat)
    requires i < j < |s| && SplitPoint(s, j)
    ensures Terminated(s[i..j])
  {
    assert s[i..j][j - i - 1] == s[j - 1];
  }

  /** A terminated piece can go in front of a split whose first piece is
      unpadded. */
  lemma {:induction false} WellSplitCons(a: string, rest: seq<string>)
    requires Terminated(a) && rest != [] && Unpadded(rest[0]) && WellSplit(rest)
    ensures WellSplit([a] + rest)
  {
    var r := [a] + rest;
    forall m | 0 < m < |r| ensures Unpadded(r[m]) {
      assert r[m] == rest[m - 1];
    }
    forall m | 0 <= m < |r| - 1 ensures Terminated(r[m]) {
      if m > 0 {
        assert r[m] == rest[m - 1];
      }
    }
  }

  /** The first piece from a position past the whitespace run is unpadded. */
  lemma {:induction false} FirstUnpadded(s: string, k: nat)
    requires k <= |s| && (k == |s| || !IsSpace(s[k]))
    ensures Unpadded(SentencesFrom(s, k)[0])
  {
    if k < |s| {
      var r := SentencesFrom(s, k);
      assert r[0] == s[k..BreakAt(s, k + 1)];
      assert r[0][0] == s[k];
    }
  }

  function Sentences(text: string): seq<string> { SentencesFrom(text, 0) }

  /** The pieces laid end to end. */
  function Concat<T>(parts: seq<seq<T>>): seq<T> {
    if parts == [] then [] else Concat(parts[..|parts| - 1]) + parts[|parts| - 1]
  }

  lemma {:induction false} ConcatPush<T>(parts: seq<seq<T>>, p: seq<T>)
    ensures Concat(parts + [p]) == Concat(parts) + p
  {
    assert (parts + [p])[..|parts|] == parts;
  }

  lemma {:induction false} ConcatOne<T>(p: seq<T>)
    ensures Concat([p]) == p
  {
    assert [p][..0] == [];
  }

  lemma {:induction false} ConcatAppend<T>(a: seq<seq<T>>, b: seq<seq<T>>)
    ensures Concat(a + b) == Concat(a) + Concat(b)
    decreases |b|
  {
    if b == [] {
      assert a + b == a;
    } else {
      var front, last := b[..|b| - 1], b[|b| - 1];
      assert b == front + [last];
      assert a + b == (a + front) + [last];
      ConcatAppend(a, front);
      ConcatPush(a + front, last);
      ConcatPush(front, last);
    }
  }

  /** Splitting into sentences only drops whitespace. */
  lemma {:induction false} SentencesVisible(s: string, i: nat)
    requires i <= |s|
    ensures Visible(Concat(SentencesFrom(s, i))) == Visible(s[i..])
    decreases |s| - i
  {
    if i == |s| || BreakAt(s, i + 1) == |s| {
      LastSentenceVisible(s, i);
    } else {
      SentencesVisible(s, SkipSpace(s, BreakAt(s, i + 1)));
      SentenceStepVisible(s, i);
    }
  }

  lemma {:induction false} LastSentenceVisible(s: string, i: nat)
    requires i <= |s|
    requires i == |s| || BreakAt(s, i + 1) == |s|
    ensures Visible(Concat(SentencesFrom(s, i))) == Visible(s[i..])
  {
    if i == |s| {
      assert SentencesFrom(s, i) == [[]];
      assert s[i..] == [];
      ConcatOne<char>([]);
    } else {
      assert SentencesFrom(s, i) == [s[i..]];
      ConcatOne(s[i..]);
    }
  }

  lemma {:induction false} SentenceStepVisible(s: string, i: nat)
    requires i < |s| && BreakAt(s, i + 1) < |s|
    requires Visible(Concat(SentencesFrom(s, SkipSpace(s, BreakAt(s, i + 1)))))
             == Visible(s[SkipSpace(s, BreakAt(s, i + 1))..])
    ensures Visible(Concat(SentencesFrom(s, i))) == Visible(s[i..])
  {
    var r := SentencesFrom(s, i);
    var j := BreakAt(s, i + 1);
    var k := SkipSpace(s, j);
    var rest := SentencesFrom(s, k);
    var a, gap, b, c := s[i..j], s[j..k], s[k..], Concat(rest);
    assert r == [a] + rest;
    ConcatAppend([a], rest);
    ConcatOne(a);
    assert Concat(r) == a + c;
    SliceThree(s, i, j, k);
    assert s[i..] == a + (gap + b);
    assert AllSpace(gap);
    VisibleGap(a, gap, b, c);
  }

  lemma {:induction false} SliceThree<T>(s: seq<T>, i: nat, j: nat, k: nat)
    requires i <= j <= k <= |s|
    ensures s[i..] == s[i..j] + (s[j..k] + s[k..])
  {
  }

  /** Dropping whitespace between two pieces keeps the visible characters. */
  lemma {:induction false} VisibleGap(a: string, gap: string, b: string, c: string)
    requires AllSpace(gap) && Visible(c) == Visible(b)
    ensures Visible(a + c) == Visible(a + (gap + b))
  {
    VisibleAppend(a, gap + b);
    VisibleAppend(gap, b);
    VisibleAllSpace(gap);
    VisibleAppend(a, c);
  }

  /** The text `_chunk_text` accumulates for a run of sentences: each one
      preceded by a space. */
  function Glue(run: seq<string>): (g: string)
    ensures run == [] <==> g == []
  {
    if run == [] then [] else Glue(run[..|run| - 1]) + " " + run[|run| - 1]
  }

  /** The state of the greedy packing: the runs already closed and the run
      being filled (`current` in the source is `Glue(open)`). */
  datatype Packing = Packing(closed: seq<seq<string>>, open: seq<string>)

  /** One iteration of the chunking loop: close the open run when adding the
      sentence (with its space) would pass `maxChars` and the run is not
      empty, then add the sentence. */
  function Step(p: Packing, sentence: string, maxChars: int): Packing {
    if |Glue(p.open)| + |sentence| + 1 > maxChars && Glue(p.open) != [] then
      Packing(p.closed + [p.open], [sentence])
    else
      Packing(p.closed, p.open + [sentence])
  }

  /** The packing after the loop has seen `sentences`. */
  function Pack(sentences: seq<string>, maxChars: int): Packing {
    if sentences == [] then Packing([], [])
    else Step(Pack(sentences[..|sentences| - 1], maxChars), sentences[|sentences| - 1], maxChars)
  }

  /** All runs of a packing, the open one last. */
  function Runs(p: Packing): seq<seq<string>> { p.closed + [p.open] }

  /** The stripped text of each run. */
  function Stripped(runs: seq<seq<string>>): (r: seq<string>)
    ensures |r| == |runs|
    ensures forall k :: 0 <= k < |runs| ==> r[k] == Strip(Glue(runs[k]))
  {
    if runs == [] then [] else Stripped(runs[..|runs| - 1]) + [Strip(Glue(runs[|runs| - 1]))]
  }

  /** The chunks `_chunk_text` returns for `text`: one per closed run, one
      for the last run unless it strips to nothing, and `[text]` when that
      leaves none. */
  function Chunks(text: string, maxChars: int): seq<string> {
    var chunks := ChunksOf(Pack(Sentences(text), maxChars));
    if chunks == [] then [text] else chunks
  }

  /** The stripped runs of a packing, without the last one when it strips to
      nothing. */
  function ChunksOf(p: Packing): seq<string> {
    var last := Strip(Glue(p.open));
    Stripped(p.closed) + (if last != [] then [last] else [])
  }

  /** The shape greedy packing leaves: every run is non-empty, a run passes
      `maxChars` only when it is a single sentence, and each run was closed
      because the next sentence did not fit. */
  predicate Greedy(runs: seq<seq<string>>, maxChars: int) {
    && (forall k :: 0 <= k < |runs| ==> runs[k] != [] && (|runs[k]| == 1 || |Glue(runs[k])| <= maxChars))
    && (forall k :: 0 <= k < |runs| - 1 ==> |Glue(runs[k])| + |runs[k + 1][0]| + 1 > maxChars)
  }

  /** The runs cover the sentences in order, no sentence is split, and the
      runs are greedy. */
  lemma {:induction false} PackShape(sentences: seq<string>, maxChars: int)
    requires sentences != []
    ensures var p := Pack(sentences, maxChars);
      Concat(Runs(p)) == sentences && Greedy(Runs(p), maxChars)
    decreases |sentences|
  {
    var n := |sentences| - 1;
    var init, sentence := sentences[..n], sentences[n];
    assert sentences == init + [sentence];
    if init == [] {
      assert Pack(sentences, maxChars) == Packing([], [sentence]);
      ConcatOne([sentence]);
      assert Runs(Packing([], [sentence])) == [[sentence]];
    } else {
      PackShape(init, maxChars);
      var p := Pack(init, maxChars);
      var runs := Runs(p);
      ConcatPush(p.closed, p.open);
      if |Glue(p.open)| + |sentence| + 1 > maxChars && Glue(p.open) != [] {
        assert Runs(Step(p, sentence, maxChars)) == runs + [[sentence]];
        ConcatPush(runs, [sentence]);
        GreedyClose(runs, sentence, maxChars);
      } else {
        var q := Step(p, sentence, maxChars);
        assert Runs(q) == p.closed + [p.open + [sentence]];
        ConcatPush(p.closed, p.open + [sentence]);
        GreedyExtend(p.closed, p.open, sentence, maxChars);
      }
    }
  }

  lemma {:induction false} GreedyClose(runs: seq<seq<string>>, sentence: string, maxChars: int)
    requires runs != [] && Greedy(runs, maxChars)
    requires |Glue(runs[|runs| - 1])| + |sentence| + 1 > maxChars
    ensures Greedy(runs + [[sentence]], maxChars)
  {
    var r := runs + [[sentence]];
    forall k | 0 <= k < |r| - 1 ensures |Glue(r[k])| + |r[k + 1][0]| + 1 > maxChars {
      assert r[k] == runs[k];
    }
  }

  lemma {:induction false} GreedyExtend(closed: seq<seq<string>>, open: seq<string>, sentence: string, maxChars: int)
    requires Greedy(closed + [open], maxChars)
    requires !(|Glue(open)| + |sentence| + 1 > maxChars && Glue(open) != [])
    ensures Greedy(closed + [open + [sentence]], maxChars)
  {
    var runs, r := closed + [open], closed + [open + [sentence]];
    var n := |closed|;
    assert (open + [sentence])[..|open|] == open;
    assert r[n] == open + [sentence];
    forall k | 0 <= k < |r| ensures r[k] != [] && (|r[k]| == 1 || |Glue(r[k])| <= maxChars) {
      if k < n {
        assert r[k] == runs[k];
      }
    }
    forall k | 0 <= k < |r| - 1 ensures |Glue(r[k])| + |r[k + 1][0]| + 1 > maxChars {
      assert r[k] == runs[k];
      if k + 1 < n {
        assert r[k + 1] == runs[k + 1];
      } else if open != [] {
        assert r[k + 1][0] == runs[k + 1][0];
      }
    }
  }

  /** Gluing a run keeps the visible characters of its sentences. */
  lemma {:induction false} GlueVisible(run: seq<string>)
    ensures Visible(Glue(run)) == Visible(Concat(run))
    decreases |run|
  {
    if run != [] {
      var init, last := run[..|run| - 1], run[|run| - 1];
      GlueVisible(init);
      Extended(Glue(init), last);
      assert run == init + [last];
      ConcatPush(init, last);
      VisibleAppend(Concat(init), last);
    }
  }

  /** Stripping the glued runs keeps the visible characters of all their
      sentences. */
  lemma {:induction false} StrippedVisible(runs: seq<seq<string>>)
    ensures Visible(Concat(Stripped(runs))) == Visible(Concat(Concat(runs)))
    decreases |runs|
  {
    if runs != [] {
      var init, last := runs[..|runs| - 1], runs[|runs| - 1];
      StrippedVisible(init);
      assert runs == init + [last];
      ConcatPush(Stripped(init), Strip(Glue(last)));
      VisibleAppend(Concat(Stripped(init)), Strip(Glue(last)));
      StripVisible(Glue(last));
      GlueVisible(last);
      ConcatPush(init, last);
      ConcatAppend(Concat(init), last);
      VisibleAppend(Concat(Concat(init)), Concat(last));
    }
  }

  /** Adding a sentence to a run, after a space. */
  lemma {:induction false} Extended(current: string, sentence: string)
    ensures Visible(current + " " + sentence) == Visible(current) + Visible(sentence)
  {
    VisibleAppend(current + " ", sentence);
    VisibleAppend(current, " ");
    assert Visible(" ") == [];
  }

  /** No character other than whitespace is lost or added by chunking. */
  lemma {:induction false} ChunksVisible(text: string, maxChars: int)
    ensures Visible(Concat(Chunks(text, maxChars))) == Visible(text)
  {
    var sentences := Sentences(text);
    var p := Pack(sentences, maxChars);
    var last := Strip(Glue(p.open));
    var chunks := Stripped(p.closed) + (if last != [] then [last] else []);
    PackShape(sentences, maxChars);
    ConcatPush(p.closed, p.open);
    SentencesVisible(text, 0);
    assert text[0..] == text;
    StrippedVisible(p.closed);
    StripVisible(Glue(p.open));
    GlueVisible(p.open);
    ConcatAppend(Concat(p.closed), p.open);
    VisibleAppend(Concat(Concat(p.closed)), Concat(p.open));
    if last != [] {
      ConcatPush(Stripped(p.closed), last);
      VisibleAppend(Concat(Stripped(p.closed)), last);
    } else {
      assert chunks == Stripped(p.closed);
    }
    if chunks == [] {
      ConcatOne(text);
    }
  }

  /** Chunk `k` is the stripped text of run `k`, every chunk is stripped, a
      chunk passes `maxChars` only when its run is a single sentence, and
      only a last run that is all whitespace has no chunk. */
  predicate ChunkedRuns(chunks: seq<string>, runs: seq<seq<string>>, maxChars: int) {
    && (|chunks| == |runs| || (|chunks| == |runs| - 1 && AllSpace(Glue(runs[|runs| - 1]))))
    && (forall k :: 0 <= k < |chunks| ==> chunks[k] == Strip(Glue(runs[k])) && IsStripped(chunks[k]))
    && (forall k :: 0 <= k < |chunks| ==> |runs[k]| == 1 || |chunks[k]| <= maxChars)
  }

  /** What the chunks are: outside the fallback `[text]`, chunk `k` is the
      stripped text of run `k`, every chunk is stripped, and a chunk passes
      `maxChars` only when its run is a single sentence. Only the last run
      can be dropped, and only when it is all whitespace. */
  lemma {:induction false} ChunksShape(text: string, maxChars: int)
    ensures var runs := Runs(Pack(Sentences(text), maxChars));
      var chunks := Chunks(text, maxChars);
      && Concat(runs) == Sentences(text) && Greedy(runs, maxChars)
      && (chunks == [text] || ChunkedRuns(chunks, runs, maxChars))
  {
    var p := Pack(Sentences(text), maxChars);
    PackShape(Sentences(text), maxChars);
    ChunksOfShape(p, maxChars);
  }

  lemma {:induction false} ChunksOfShape(p: Packing, maxChars: int)
    requires Greedy(Runs(p), maxChars)
    ensures ChunkedRuns(ChunksOf(p), Runs(p), maxChars)
  {
    var runs, chunks := Runs(p), ChunksOf(p);
    var all := Stripped(runs);
    var last := Strip(Glue(p.open));
    StripProperties(Glue(p.open));
    StrippedPush(p.closed, p.open);
    assert all == Stripped(p.closed) + [last];
    forall k | 0 <= k < |chunks| ensures chunks[k] == Strip(Glue(runs[k])) && IsStripped(chunks[k]) {
      assert chunks[k] == all[k];
      StripProperties(Glue(runs[k]));
    }
  }

  lemma {:induction false} PackPush(sentences: seq<string>, i: nat, maxChars: int)
    requires i < |sentences|
    ensures Pack(sentences[..i + 1], maxChars) == Step(Pack(sentences[..i], maxChars), sentences[i], maxChars)
  {
    assert sentences[..i + 1][..i] == sentences[..i];
  }

  lemma {:induction false} StrippedPush(runs: seq<seq<string>>, run: seq<string>)
    ensures Stripped(runs + [run]) == Stripped(runs) + [Strip(Glue(run))]
  {
    assert (runs + [run])[..|runs|] == runs;
  }

  /** The loop of `_chunk_text`: the chunks closed so far and the text of
      the open run, after all sentences. */
  method PackSentences(sentences: seq<string>, maxChars: int) returns (chunks: seq<string>, current: string)
    ensures chunks == Stripped(Pack(sentences, maxChars).closed)
    ensures current == Glue(Pack(sentences, maxChars).open)
  {
    chunks := [];
    current := "";
    ghost var runs: seq<seq<string>> := [];
    ghost var run: seq<string> := [];
    for i := 0 to |sentences|
      invariant Packing(runs, run) == Pack(sentences[..i], maxChars)
      invariant current == Glue(run)
      invariant chunks == Stripped(runs)
    {
      var sentence := sentences[i];
      PackPush(sentences, i, maxChars);
      if |current| + |sentence| + 1 > maxChars && current != "" {
        StrippedPush(runs, run);
        chunks := chunks + [Strip(current)];
        runs := runs + [run];
        current := "";
        run := [];
      }
      current := current + " " + sentence;
      run := run + [sentence];
    }
    assert sentences[..|sentences|] == sentences;
  }

  /** `_chunk_text`. */
  method ChunkText(text: string, maxChars: int) returns (chunks: seq<string>)
    ensures chunks == Chunks(text, maxChars)
    ensures |chunks| >= 1
    ensures Visible(Concat(chunks)) == Visible(text)
  {
    var current;
    chunks, current := PackSentences(Sentences(text), maxChars);
    if Strip(current) != [] {
      chunks := chunks + [Strip(current)];
    }
    if chunks == [] {
      chunks := [text];
    }
    ChunksVisible(text, maxChars);
  }

  // ---------------------------------------------------------------- narration

  /** The opening part: the paper's title. */
  function TitlePart(title: string): string {
    "Analysis report for the paper: " + title + "."
  }

  /** The closing part. */
  const EndPart: string := "End of analysis report."

  /** The at most five authors named. */
  function AuthorsPart(authors: seq<string>): seq<string> {
    if authors == [] then [] else ["By " + Join(Take(authors, 5), ", ") + "."]
  }

  /** The one-sentence summary, then the abstract summary when it is not
      empty. */
  function SummaryParts(summary: Option<PaperSummary>): seq<string> {
    if summary.None? then []
    else [summary.value.oneSentence] + (if summary.value.abstractSummary != [] then [summary.value.abstractSummary] else [])
  }

  /** Key point `kp` read out as finding number `n`. */
  function Finding(n: nat, kp: KeyPoint): string {
    "Finding " + Decimal(n) + ": " + kp.point + ". " + kp.evidence + "."
  }

  /** The key points numbered from 1 in order. */
  function Findings(kps: seq<KeyPoint>): (r: seq<string>)
    ensures |r| == |kps|
    ensures forall i :: 0 <= i < |kps| ==> r[i] == Finding(i + 1, kps[i])
  {
    if kps == [] then [] else Findings(kps[..|kps| - 1]) + [Finding(|kps|, kps[|kps| - 1])]
  }

  /** With key points, the findings follow their heading, numbered from 1 in
      the order of the key points; without, there is no heading. */
  function KeyFindingParts(kps: seq<KeyPoint>): (r: seq<string>)
    ensures |r| == if kps == [] then 0 else |kps| + 1
    ensures forall i :: 0 <= i < |kps| ==> r[i + 1] == Finding(i + 1, kps[i])
  {
    if kps == [] then [] else ["Key findings:"] + Findings(kps)
  }

  /** A heading followed by its text, or nothing when the text is empty. */
  function Labelled(heading: string, text: string): seq<string> {
    if text == [] then [] else [heading, text]
  }

  /** Methodology, results and conclusions, each when it is not empty. */
  function SummaryLabelled(summary: Option<PaperSummary>): seq<string> {
    if summary.None? then []
    else
      Labelled("Methodology overview:", summary.value.methodologySummary)
      + Labelled("Results:", summary.value.resultsSummary)
      + Labelled("Conclusions:", summary.value.conclusions)
  }

  /** Items read out indented by two spaces. */
  function Indented(items: seq<string>): (r: seq<string>)
    ensures |r| == |items|
    ensures forall i :: 0 <= i < |items| ==> r[i] == "  " + items[i]
  {
    if items == [] then [] else Indented(items[..|items| - 1]) + ["  " + items[|items| - 1]]
  }

  /** A heading and the first five items, or nothing when there are none. */
  function Listed(heading: string, items: seq<string>): seq<string> {
    if items == [] then [] else [heading] + Indented(Take(items, 5))
  }

  /** The score line; `format` renders the score with one decimal
      (`{score:.1f}`). */
  function ScoreLine(score: real, format: real -> string): string {
    "Peer review score: " + format(score) + " out of 10, corresponding to " + InterpretScore(score) + "."
  }

  function ReviewParts(review: Option<PeerReview>, format: real -> string): seq<string> {
    if review.None? then []
    else
      [ScoreLine(review.value.overallScore, format)]
      + Listed("Strengths identified by the review:", review.value.strengths)
      + Listed("Weaknesses identified by the review:", review.value.weaknesses)
  }

  /** The counts of the extracted parts. */
  function StatsPart(ec: ExtractedContent): string {
    "The paper contains " + Decimal(|ec.sections|) + " sections, "
    + Decimal(|ec.equations|) + " equations, " + Decimal(|ec.tables|) + " tables, "
    + Decimal(|ec.figures|) + " figures, and " + Decimal(|ec.references|) + " references."
  }

  /** The parts `build_narration` collects, in order. */
  function NarrationParts(report: AnalysisReport, format: real -> string): seq<string> {
    [TitlePart(report.extractedContent.title)]
    + AuthorsPart(report.extractedContent.authors)
    + SummaryParts(report.summary)
    + KeyFindingParts(report.keyPoints)
    + SummaryLabelled(report.summary)
    + ReviewParts(report.review, format)
    + [StatsPart(report.extractedContent), EndPart]
  }

  /** The narration script: the parts joined by spaces and cleaned for speech. */
  function Narration(report: AnalysisReport, format: real -> string): string {
    CleanForSpeech(Join(NarrationParts(report, format), " "))
  }

  /** Appends the numbered findings, as the `enumerate` loop does. */
  method AppendFindings(parts: seq<string>, kps: seq<KeyPoint>) returns (out: seq<string>)
    ensures out == parts + Findings(kps)
  {
    out := parts;
    for i := 0 to |kps|
      invariant out == parts + Findings(kps[..i])
    {
      assert kps[..i + 1][..i] == kps[..i];
      out := out + [Finding(i + 1, kps[i])];
    }
    assert kps[..|kps|] == kps;
  }

  /** Appends a heading and the first five items, each indented, when there
      are items. */
  method AppendListed(parts: seq<string>, heading: string, items: seq<string>) returns (out: seq<string>)
    ensures out == parts + Listed(heading, items)
  {
    if items == [] {
      return parts;
    }
    var shown := Take(items, 5);
    out := parts + [heading];
    ghost var head := out;
    for i := 0 to |shown|
      invariant out == head + Indented(shown[..i])
    {
      IndentedPush(shown, i);
      out := out + ["  " + shown[i]];
    }
    assert shown[..|shown|] == shown;
    assert Listed(heading, items) == [heading] + Indented(shown);
    assert out == parts + [heading] + Indented(shown);
    Associative(parts, [heading], Indented(shown), []);
  }

  lemma {:induction false} IndentedPush(items: seq<string>, i: nat)
    requires i < |items|
    ensures Indented(items[..i + 1]) == Indented(items[..i]) + ["  " + items[i]]
  {
    assert items[..i + 1][..i] == items[..i];
  }

  /** Regrouping appended parts. */
  lemma {:induction false} Associative<T>(a: seq<T>, b: seq<T>, c: seq<T>, d: seq<T>)
    ensures a + b + c + d == a + (b + c + d)
  {
  }

  /** The parts of the report's review, appended. */
  method AppendReview(parts: seq<string>, review: Option<PeerReview>, format: real -> string) returns (out: seq<string>)
    ensures out == parts + ReviewParts(review, format)
  {
    if review.None? {
      return parts;
    }
    var score := review.value.overallScore;
    out := parts + [ScoreLine(score, format)];
    var strengths := Listed("Strengths identified by the review:", review.value.strengths);
    var weaknesses := Listed("Weaknesses identified by the review:", review.value.weaknesses);
    out := AppendListed(out, "Strengths identified by the review:", review.value.strengths);
    out := AppendListed(out, "Weaknesses identified by the review:", review.value.weaknesses);
    Associative(parts, [ScoreLine(score, format)], strengths, weaknesses);
  }

  /** The one-sentence and abstract summaries, appended. */
  method AppendSummary(parts: seq<string>, summary: Option<PaperSummary>) returns (out: seq<string>)
    ensures out == parts + SummaryParts(summary)
  {
    out := parts;
    if summary.Some? {
      out := out + [summary.value.oneSentence];
      if summary.value.abstractSummary != [] {
        out := out + [summary.value.abstractSummary];
      }
    }
  }

  /** The heading and the numbered findings, appended when there are key
      points. */
  method AppendKeyFindings(parts: seq<string>, kps: seq<KeyPoint>) returns (out: seq<string>)
    ensures out == parts + KeyFindingParts(kps)
  {
    out := parts;
    if kps != [] {
      out := AppendFindings(out + ["Key findings:"], kps);
    }
  }

  /** Methodology, results and conclusions, appended. */
  method AppendLabelled(parts: seq<string>, summary: Option<PaperSummary>) returns (out: seq<string>)
    ensures out == parts + SummaryLabelled(summary)
  {
    if summary.None? {
      return parts;
    }
    var sm := summary.value;
    var m, r, c := Labelled("Methodology overview:", sm.methodologySummary),
                   Labelled("Results:", sm.resultsSummary), Labelled("Conclusions:", sm.conclusions);
    out := parts;
    if sm.methodologySummary != [] {
      out := out + ["Methodology overview:", sm.methodologySummary];
    }
    assert out == parts + m;
    if sm.resultsSummary != [] {
      out := out + ["Results:", sm.resultsSummary];
    }
    assert out == parts + m + r;
    if sm.conclusions != [] {
      out := out + ["Conclusions:", sm.conclusions];
    }
    assert out == parts + (m + r + c);
  }

  /** `build_narration`: the narration script of a report. It is stripped and
      single-spaced. */
  method BuildNarration(report: AnalysisReport, format: real -> string) returns (narration: string)
    ensures narration == Narration(report, format)
    ensures IsStripped(narration) && SingleSpaced(narration)
  {
    var ec := report.extractedContent;
    var parts: seq<string> := ["Analysis report for the paper: " + ec.title + "."];
    if ec.authors != [] {
      parts := parts + ["By " + Join(Take(ec.authors, 5), ", ") + "."];
    }
    assert parts == [TitlePart(ec.title)] + AuthorsPart(ec.authors);
    parts := AppendSummary(parts, report.summary);
    parts := AppendKeyFindings(parts, report.keyPoints);
    parts := AppendLabelled(parts, report.summary);
    parts := AppendReview(parts, report.review, format);
    parts := parts + [StatsPart(ec)];
    parts := parts + ["End of analysis report."];
    assert parts == NarrationParts(report, format);
    narration := CleanForSpeech(Join(parts, " "));
    CleanForSpeechShape(Join(parts, " "));
  }

  /** The narration opens with the title and closes with the statistics and
      the closing part, in the joined text as in the parts. */
  lemma {:induction false} NarrationBookends(report: AnalysisReport, format: real -> string)
    ensures var parts := NarrationParts(report, format);
      && |parts| >= 3
      && parts[0] == TitlePart(report.extractedContent.title)
      && parts[|parts| - 2] == StatsPart(report.extractedContent)
      && parts[|parts| - 1] == EndPart
    ensures var raw := Join(NarrationParts(report, format), " ");
      && StartsWith(raw, TitlePart(report.extractedContent.title) + " ")
      && EndsWith(raw, " " + EndPart)
  {
    JoinEnds(NarrationParts(report, format), " ");
  }

  /** Parts joined by a separator start with the first part and the
      separator, and end with the separator and the last part. */
  lemma {:induction false} JoinEnds(parts: seq<string>, sep: string)
    requires |parts| >= 2
    ensures var raw := Join(parts, sep);
      StartsWith(raw, parts[0] + sep) && EndsWith(raw, sep + parts[|parts| - 1])
  {
    var init := parts[..|parts| - 1];
    assert parts == init + [parts[|parts| - 1]];
    JoinSnoc(init, parts[|parts| - 1], sep);
    ConcatEnds(parts[0] + sep, Join(parts[1..], sep), []);
    ConcatEnds(Join(init, sep), sep, parts[|parts| - 1]);
    assert Join(init, sep) + sep + parts[|parts| - 1] == Join(init, sep) + (sep + parts[|parts| - 1]);
    var raw := Join(parts, sep);
    assert raw[|raw| - |sep + parts[|parts| - 1]|..] == sep + parts[|parts| - 1];
  }

  /** The number of review parts for `n` items: a label and at most five
      items, or nothing. */
  function ListingSize(n: nat): nat { if n == 0 then 0 else 1 + (if n < 5 then n else 5) }

  /** A listing: the heading and then the first items, at most five, in
      order. */
  lemma {:induction false} ListedShape(heading: string, items: seq<string>)
    ensures |Listed(heading, items)| == ListingSize(|items|)
    ensures items != [] ==> Listed(heading, items)[0] == heading
    ensures forall i :: 0 <= i < |items| && i < 5 ==> Listed(heading, items)[1 + i] == "  " + items[i]
  {
  }

  /** The review part: the score line carries `interpret_score`'s decision,
      which is one of its labels, and then come at most five strengths and
      at most five weaknesses, the first ones in order. */
  lemma {:induction false} ReviewPartsShape(review: PeerReview, format: real -> string)
    ensures var parts := ReviewParts(Some(review), format);
      && parts[0] == ScoreLine(review.overallScore, format)
      && InterpretScore(review.overallScore) in Decisions
      && |parts| == 1 + ListingSize(|review.strengths|) + ListingSize(|review.weaknesses|) <= 13
      && (forall i :: 0 <= i < |review.strengths| && i < 5 ==> parts[2 + i] == "  " + review.strengths[i])
  {
    InterpretScoreDecisions(review.overallScore);
    var parts := ReviewParts(Some(review), format);
    var strengths := Listed("Strengths identified by the review:", review.strengths);
    var weaknesses := Listed("Weaknesses identified by the review:", review.weaknesses);
    ListedShape("Strengths identified by the review:", review.strengths);
    ListedShape("Weaknesses identified by the review:", review.weaknesses);
    assert parts == [ScoreLine(review.overallScore, format)] + strengths + weaknesses;
    forall i | 0 <= i < |review.strengths| && i < 5 ensures parts[2 + i] == "  " + review.strengths[i] {
      assert parts[2 + i] == strengths[1 + i];
    }
  }

  /** At most five authors are named, the first ones. */
  lemma {:induction false} AuthorsNamed(authors: seq<string>)
    ensures |AuthorsPart(authors)| == if authors == [] then 0 else 1
    ensures authors != [] ==> exists names ::
      && |names| == (if |authors| < 5 then |authors| else 5) <= 5
      && names == authors[..|names|]
      && AuthorsPart(authors)[0] == "By " + Join(names, ", ") + "."
  {
    if authors != [] {
      var names := Take(authors, 5);
      assert AuthorsPart(authors)[0] == "By " + Join(names, ", ") + ".";
    }
  }
}
