/** The title, author and abstract heuristics of the OCR engine
    (`_extract_title`, `_extract_authors`, `_extract_abstract`). */
module OcrMetadata {
  import opened Text
  import opened Models

  // ---------------------------------------------------------------- title

  predicate IsTitleSection(s: Section) { s.level == 1 }

  /** The first line of the stripped text, with `#` and spaces trimmed and
      then stripped: `lines[0].strip("# ").strip()`. */
  function FirstLineTitle(text: string): (r: string)
    ensures IsStripped(r)
  {
    StripProperties(StripChars(Lines(Strip(text))[0], {'#', ' '}));
    Strip(StripChars(Lines(Strip(text))[0], {'#', ' '}))
  }

  /** `_extract_title`: the title of the first level-one section, else the
      trimmed first line of the text. `split` never returns an empty list, so
      the `"Untitled"` branch of the source cannot be taken. */
  function ExtractTitle(text: string, sections: seq<Section>): (r: string)
    ensures FirstIndex(sections, IsTitleSection, 0).Some? ==>
      r == sections[FirstIndex(sections, IsTitleSection, 0).value].title
    ensures FirstIndex(sections, IsTitleSection, 0).None? ==> r == FirstLineTitle(text)
  {
    match FirstIndex(sections, IsTitleSection, 0)
    case Some(k) => sections[k].title
    case None => FirstLineTitle(text)
  }

  /** `line.strip("# ").strip()` is a slice of `line`. */
  lemma {:induction false} TrimmedLineIsSlice(line: string)
    ensures exists a, b :: 0 <= a <= b <= |line| && Strip(StripChars(line, {'#', ' '})) == line[a..b]
  {
    var cs := {'#', ' '};
    var a0 := SkipIn(line, cs, 0);
    var e0 := TrimIn(line, cs, a0, |line|);
    var t := StripChars(line, cs);
    StripIsSlice(t);
    var i, j := StripStart(t), StripEnd(t);
    SliceOfSlice(line, a0, e0, i, j);
    assert Strip(t) == line[a0 + i..a0 + j];
  }

  /** The fallback title is a slice of the first line of the stripped text:
      it holds no newline and no surrounding whitespace, and a blank text
      gives the empty title. */
  lemma {:induction false} FirstLineTitleShape(text: string)
    ensures exists a, b :: 0 <= a <= b <= |Lines(Strip(text))[0]| && FirstLineTitle(text) == Lines(Strip(text))[0][a..b]
    ensures '\n' !in FirstLineTitle(text)
    ensures AllSpace(text) ==> FirstLineTitle(text) == []
  {
    var line := Lines(Strip(text))[0];
    TrimmedLineIsSlice(line);
    assert '\n' !in line;
    if AllSpace(text) {
      StripProperties(text);
      assert line == [];
    }
  }

  /** With no level-one section the title is the fallback one, so a text
      without a level-one heading that is blank gets the empty title. */
  lemma {:induction false} TitleWithoutSections(text: string, sections: seq<Section>)
    requires forall k :: 0 <= k < |sections| ==> sections[k].level != 1
    ensures ExtractTitle(text, sections) == FirstLineTitle(text)
    ensures AllSpace(text) ==> ExtractTitle(text, sections) == []
  {
    FirstLineTitleShape(text);
  }

  // ---------------------------------------------------------------- authors

  /** A stripped line that names authors: not empty, not a heading, and
      holding a comma. */
  predicate AuthorLine(t: string) { t != [] && t[0] != '#' && ',' in t }

  /** The first of the lines at indices `i` … 4 whose stripped form names
      authors (`lines[1:5]`). */
  function AuthorLineIndex(lines: seq<string>, i: nat): (r: Option<nat>)
    requires 1 <= i
    ensures r.Some? ==> i <= r.value < 5 && r.value < |lines| && AuthorLine(Strip(lines[r.value]))
    ensures forall k :: i <= k < 5 && k < |lines| && (r.None? || k < r.value) ==> !AuthorLine(Strip(lines[k]))
    decreases 5 - i
  {
    if i >= 5 || i >= |lines| then None
    else if AuthorLine(Strip(lines[i])) then Some(i)
    else AuthorLineIndex(lines, i + 1)
  }

  /** `[a.strip() for a in parts]`. */
  function StripAll(parts: seq<string>): (r: seq<string>)
    ensures |r| == |parts|
    ensures forall k :: 0 <= k < |r| ==> r[k] == Strip(parts[k])
  {
    seq(|parts|, k requires 0 <= k < |parts| => Strip(parts[k]))
  }

  /** `_extract_authors`: the stripped comma-separated pieces of the first
      author line among the lines 1 to 4 of the stripped text. */
  function ExtractAuthors(text: string): (r: seq<string>)
  {
    match AuthorLineIndex(Lines(Strip(text)), 1)
    case Some(i) => StripAll(Split(Strip(Lines(Strip(text))[i]), ','))
    case None => []
  }

  /** Authors are found exactly when one of the lines 1 to 4 of the stripped
      text is an author line; there are then at least two of them, each
      stripped and free of commas, and they are the pieces of the first such
      line. */
  lemma {:induction false} AuthorsShape(text: string)
    ensures ExtractAuthors(text) == [] <==>
      forall k :: 1 <= k < 5 && k < |Lines(Strip(text))| ==> !AuthorLine(Strip(Lines(Strip(text))[k]))
    ensures ExtractAuthors(text) != [] ==> |ExtractAuthors(text)| >= 2
    ensures forall k :: 0 <= k < |ExtractAuthors(text)| ==>
      IsStripped(ExtractAuthors(text)[k]) && ',' !in ExtractAuthors(text)[k]
  {
    var lines := Lines(Strip(text));
    match AuthorLineIndex(lines, 1)
    case None =>
    case Some(i) =>
      var line := Strip(lines[i]);
      SplitAtSeparator(line, ',');
      var parts := Split(line, ',');
      var r := StripAll(parts);
      forall k | 0 <= k < |r| ensures IsStripped(r[k]) && ',' !in r[k] {
        StripProperties(parts[k]);
        StripIsSlice(parts[k]);
        assert ',' !in parts[k];
        assert r[k] == parts[k][StripStart(parts[k])..StripEnd(parts[k])];
      }
  }

  // ---------------------------------------------------------------- abstract

  /** `"abstract" in section.title.lower()`. */
  predicate IsAbstractSection(s: Section) { Contains(Lower(s.title), "abstract") }

  /** `\babstract\b` at `p`, ignoring the case of ASCII letters. */
  predicate KeywordAt(s: string, p: nat) {
    MatchFold(s, "abstract", p)
    && (p == 0 || !IsWordChar(s[p - 1]))
    && (p + 8 == |s| || !IsWordChar(s[p + 8]))
  }

  predicate ColonOrSpace(c: char) { c == ':' || IsSpace(c) }

  /** Where a greedy `[:\s]*` starting at `i` stops. */
  function ColonSpaceEnd(s: string, i: nat): (k: nat)
    requires i <= |s|
    ensures i <= k <= |s|
    ensures forall j :: i <= j < k ==> ColonOrSpace(s[j])
    ensures k < |s| ==> !ColonOrSpace(s[k])
    decreases |s| - i
  {
    if i == |s| || !ColonOrSpace(s[i]) then i else ColonSpaceEnd(s, i + 1)
  }

  /** The alternation `\n\s*\n|\n#|\n##|\n1\.|\nI\.` (ignoring case) at `j`.
      `\s*\n` holds exactly when a newline occurs in the run of whitespace
      that follows. */
  predicate TerminatorAt(s: string, j: nat) {
    j < |s| && s[j] == '\n'
    && (NextChar(s, '\n', j + 1) < SkipSpace(s, j + 1)
        || (j + 1 < |s| && s[j + 1] == '#')
        || (j + 2 < |s| && (s[j + 1] == '1' || s[j + 1] == 'I' || s[j + 1] == 'i') && s[j + 2] == '.'))
  }

  /** The first terminator at or after `i`: where the lazy `(.+?)` stops. */
  function NextTerminator(s: string, i: nat): (r: Option<nat>)
    requires i <= |s|
    ensures r.Some? ==> i <= r.value < |s| && TerminatorAt(s, r.value)
    ensures forall j :: i <= j < |s| && (r.None? || j < r.value) ==> !TerminatorAt(s, j)
    decreases |s| - i
  {
    if i == |s| then None else if TerminatorAt(s, i) then Some(i) else NextTerminator(s, i + 1)
  }

  /** The group `(.+?)` once `[:\s]*` has taken `s[lo..q]`: when no terminator
      follows, `[:\s]*` gives back one character at a time, down to none. The
      result is the span of the group. */
  function GroupFrom(s: string, lo: nat, q: nat): (r: Option<(nat, nat)>)
    requires lo <= q <= |s|
    ensures r.Some? ==> lo <= r.value.0 < r.value.1 < |s| && r.value.0 <= q
    ensures r.Some? ==> TerminatorAt(s, r.value.1)
    ensures r.Some? ==> forall j :: r.value.0 < j < r.value.1 ==> !TerminatorAt(s, j)
    decreases q
  {
    if q < |s| && NextTerminator(s, q + 1).Some? then Some((q, NextTerminator(s, q + 1).value))
    else if q == lo then None
    else GroupFrom(s, lo, q - 1)
  }

  /** `re.search` of the abstract pattern from `from`: the first keyword
      position at which the rest of the pattern matches, with the span of
      its group. */
  function AbstractMatch(s: string, from: nat): (r: Option<(nat, nat)>)
    requires from <= |s|
    ensures r.Some? ==> from + 8 <= r.value.0 < r.value.1 < |s| && TerminatorAt(s, r.value.1)
    ensures r.Some? ==> forall j :: r.value.0 < j < r.value.1 ==> !TerminatorAt(s, j)
    decreases |s| - from
  {
    if from + 8 > |s| then None
    else if KeywordAt(s, from) && GroupFrom(s, from + 8, ColonSpaceEnd(s, from + 8)).Some? then
      GroupFrom(s, from + 8, ColonSpaceEnd(s, from + 8))
    else AbstractMatch(s, from + 1)
  }

  /** The group of the abstract pattern always follows a whole-word
      `abstract` and only colons and whitespace. */
  lemma {:induction false} AbstractMatchFollowsKeyword(s: string, from: nat)
    requires from <= |s| && AbstractMatch(s, from).Some?
    ensures exists p :: (from <= p && p + 8 <= AbstractMatch(s, from).value.0 && KeywordAt(s, p)
      && forall j :: p + 8 <= j < AbstractMatch(s, from).value.0 ==> ColonOrSpace(s[j]))
    decreases |s| - from
  {
    if KeywordAt(s, from) && GroupFrom(s, from + 8, ColonSpaceEnd(s, from + 8)).Some? {
      assert from + 8 <= AbstractMatch(s, from).value.0 <= ColonSpaceEnd(s, from + 8);
    } else {
      AbstractMatchFollowsKeyword(s, from + 1);
    }
  }

  /** A text in which `abstract` occurs nowhere as a whole word (in any ASCII
      case) has no abstract match. */
  lemma {:induction false} NoKeywordNoMatch(s: string, from: nat)
    requires from <= |s|
    requires forall p :: from <= p <= |s| ==> !KeywordAt(s, p)
    ensures AbstractMatch(s, from).None?
    decreases |s| - from
  {
    if from + 8 <= |s| {
      NoKeywordNoMatch(s, from + 1);
    }
  }

  /** `_extract_abstract`: the content of the first section whose title
      mentions the abstract, else the stripped group of the pattern, else the
      empty string. */
  function ExtractAbstract(text: string, sections: seq<Section>): (r: string)
    ensures FirstIndex(sections, IsAbstractSection, 0).Some? ==>
      r == sections[FirstIndex(sections, IsAbstractSection, 0).value].content
    ensures FirstIndex(sections, IsAbstractSection, 0).None? ==>
      if AbstractMatch(text, 0).Some? then IsStripped(r) && |r| < |text| else r == []
  {
    match FirstIndex(sections, IsAbstractSection, 0)
    case Some(k) => sections[k].content
    case None =>
      match AbstractMatch(text, 0)
      case Some(g) =>
        StripProperties(text[g.0..g.1]);
        Strip(text[g.0..g.1])
      case None => ""
  }

  /** Without an abstract section and without the word `abstract`, the
      abstract is empty. */
  lemma {:induction false} AbstractWithoutKeyword(text: string, sections: seq<Section>)
    requires forall k :: 0 <= k < |sections| ==> !IsAbstractSection(sections[k])
    requires forall p :: 0 <= p <= |text| ==> !KeywordAt(text, p)
    ensures ExtractAbstract(text, sections) == []
  {
    NoKeywordNoMatch(text, 0);
  }
}
