/** The references scanner of the OCR engine (`_extract_references`): a pass
    over the lines that waits for a references heading, then reads one entry
    per line in bracketed, numbered or author-year form, until the next
    top-level heading once an entry was read. */
module OcrReferences {
  import opened Text
  import opened Models
  import opened OcrPatterns

  // ---------------------------------------------------------------- line patterns

  /** `^#{1,3}\s*(References|Bibliography|Works Cited)`, ignoring case. The
      `#` run must be the whole run, since a further `#` can start neither
      `\s*` nor a title. */
  predicate IsReferencesHeading(t: string) {
    var h := HashEnd(t, 0);
    var w := SkipSpace(t, h);
    1 <= h <= 3
    && (MatchFold(t, "references", w) || MatchFold(t, "bibliography", w) || MatchFold(t, "works cited", w))
  }

  /** `^#{1,2}\s+\w`: a level-one or level-two heading whose title starts
      with a word character. */
  predicate IsTopHeading(t: string) {
    var h := HashEnd(t, 0);
    var w := SkipSpace(t, h);
    1 <= h <= 2 && h < |t| && IsSpace(t[h]) && w < |t| && IsWordChar(t[w])
  }

  /** `^\[(\d+)\]\s*(.+)`: the second group. `.+` runs to the end of the line;
      it cannot start on a newline. */
  function Bracketed(t: string): (r: Option<string>)
    ensures r.Some? ==> r.value != [] && '\n' !in r.value
  {
    if t == [] || t[0] != '[' then None
    else
      var d := DigitEnd(t, 1);
      if d == 1 || d == |t| || t[d] != ']' then None
      else
        var w := SkipSpace(t, d + 1);
        var b := if w < |t| then Some(w) else LastNotNewline(t, d + 1, w);
        match b
        case None => None
        case Some(j) => Some(t[j..NextChar(t, '\n', j)])
  }

  /** `^(\d+)\.\s+(.+)`: the second group. */
  function Numbered(t: string): (r: Option<string>)
    ensures r.Some? ==> r.value != [] && '\n' !in r.value
  {
    var d := DigitEnd(t, 0);
    if d == 0 || d + 1 >= |t| || t[d] != '.' || !IsSpace(t[d + 1]) then None
    else
      var w := SkipSpace(t, d + 1);
      var b := if w < |t| then Some(w) else LastNotNewline(t, d + 2, w);
      match b
      case None => None
      case Some(j) => Some(t[j..NextChar(t, '\n', j)])
  }

  /** `[a-zA-Zéàü\-]`. */
  predicate IsNameChar(c: char) { IsLetter(c) || c == 'é' || c == 'à' || c == 'ü' || c == '-' }

  /** End of the run of name characters starting at `i`. */
  function NameEnd(t: string, i: nat): (k: nat)
    requires i <= |t|
    ensures i <= k <= |t|
    ensures k < |t| ==> !IsNameChar(t[k])
    decreases |t| - i
  {
    if i == |t| || !IsNameChar(t[i]) then i else NameEnd(t, i + 1)
  }

  /** `.{10,}` at `f`: ten characters that are not newlines. */
  predicate TenMore(t: string, f: nat) {
    f + 10 <= |t| && forall j :: f <= j < f + 10 ==> t[j] != '\n'
  }

  /** `(?:,\s*[A-Z]\.?)+.{10,}` at `i`, with every choice of repetitions and of
      the optional dot that `re` may backtrack through. `\s*` must take the
      whole whitespace run, as `[A-Z]` cannot match whitespace. */
  predicate InitialsThenText(t: string, i: nat)
    requires i <= |t|
    decreases |t| - i
  {
    i < |t| && t[i] == ','
    && var w := SkipSpace(t, i + 1);
    w < |t| && IsUpper(t[w])
    && (TenMore(t, w + 1) || InitialsThenText(t, w + 1)
        || (w + 1 < |t| && t[w + 1] == '.' && (TenMore(t, w + 2) || InitialsThenText(t, w + 2))))
  }

  /** `^[A-Z][a-zA-Zéàü\-]+(?:,\s*[A-Z]\.?)+.{10,}`. The name run must be the
      whole run, since a comma has to follow it. */
  predicate IsAuthorYear(t: string) {
    |t| >= 2 && IsUpper(t[0]) && var e := NameEnd(t, 1); e >= 2 && InitialsThenText(t, e)
  }

  /** The text a stripped line contributes as a reference, if any: bracketed
      first, then numbered, then a whole author-year line longer than twenty
      characters. */
  function EntryText(t: string): (r: Option<string>)
    ensures r.Some? ==> r.value != []
  {
    if Bracketed(t).Some? then Bracketed(t)
    else if Numbered(t).Some? then Numbered(t)
    else if IsAuthorYear(t) && |t| > 20 then Some(t)
    else None
  }

  // ---------------------------------------------------------------- the scan

  /** What a stripped line is to the scan, tried in the order of the source:
      blank, references heading, top-level heading, reference entry. */
  datatype LineKind = Blank | RefHeading | TopHeading | Entry(text: string) | Other

  function Classify(t: string): (r: LineKind)
    ensures r.Blank? <==> t == []
    ensures r.RefHeading? ==> IsReferencesHeading(t)
    ensures r.TopHeading? ==> IsTopHeading(t) && EntryText(t).None?
    ensures r.Entry? ==> EntryText(t) == Some(r.text) && r.text != []
    ensures r.Other? ==> EntryText(t).None?
    ensures t != [] && !IsReferencesHeading(t) && !IsTopHeading(t) && EntryText(t).Some? ==> r == Entry(EntryText(t).value)
  {
    if t == [] then Blank
    else if IsReferencesHeading(t) then RefHeading
    else if IsTopHeading(t) then TopEntryFree(t); TopHeading
    else match EntryText(t)
      case Some(x) => Entry(x)
      case None => Other
  }

  /** A top-level heading starts with `#`, so none of the entry forms
      matches it. */
  lemma {:induction false} TopEntryFree(t: string)
    requires IsTopHeading(t)
    ensures EntryText(t).None?
  {
    assert HashEnd(t, 0) >= 1 && t[0] == '#';
  }

  /** The kind of every line of the text. */
  function Kinds(lines: seq<string>): (r: seq<LineKind>)
    ensures |r| == |lines|
  {
    if lines == [] then [] else Kinds(lines[..|lines| - 1]) + [Classify(Strip(lines[|lines| - 1]))]
  }

  /** Each line has its own kind. */
  lemma {:induction false} KindsAt(lines: seq<string>, j: nat)
    requires j < |lines|
    ensures Kinds(lines)[j] == Classify(Strip(lines[j]))
    decreases |lines|
  {
    var init := lines[..|lines| - 1];
    assert Kinds(lines) == Kinds(init) + [Classify(Strip(lines[|lines| - 1]))];
    if j < |init| {
      KindsAt(init, j);
      assert init[j] == lines[j];
    }
  }

  /** The texts of the references read from line `i` on, with `inSection`
      the flag of the source and `counter` the number of references read so
      far. */
  function Scan(kinds: seq<LineKind>, i: nat, inSection: bool, counter: nat): (r: seq<string>)
    requires i <= |kinds|
    decreases |kinds| - i
  {
    if i == |kinds| then []
    else match kinds[i]
      case Blank => Scan(kinds, i + 1, inSection, counter)
      case RefHeading => Scan(kinds, i + 1, true, counter)
      case TopHeading =>
        if inSection && counter > 0 then [] else Scan(kinds, i + 1, inSection, counter)
      case Entry(x) =>
        if !inSection then Scan(kinds, i + 1, false, counter)
        else [x] + Scan(kinds, i + 1, true, counter + 1)
      case Other => Scan(kinds, i + 1, inSection, counter)
  }

  /** The texts as references numbered `ref_001`, `ref_002`, … */
  function AsReferences(texts: seq<string>): (r: seq<Reference>)
    ensures |r| == |texts|
    ensures forall k :: 0 <= k < |r| ==> r[k].text == texts[k]
  {
    seq(|texts|, k requires 0 <= k < |texts| => Reference(FormatId("ref_", k + 1), texts[k]))
  }

  /** The kind of line `i`, found as the source's `if` chain finds it. */
  method KindOf(lines: seq<string>, ghost kinds: seq<LineKind>, i: nat) returns (kind: LineKind)
    requires kinds == Kinds(lines) && i < |lines|
    ensures kind == kinds[i]
  {
    var stripped := Strip(lines[i]);
    kind := Classify(stripped);
    KindsAt(lines, i);
  }

  /** One step of the scan, case by case. */
  lemma {:induction false} ScanStep(kinds: seq<LineKind>, i: nat, inSection: bool, counter: nat)
    requires i < |kinds|
    ensures kinds[i].Blank? ==> Scan(kinds, i, inSection, counter) == Scan(kinds, i + 1, inSection, counter)
    ensures kinds[i].RefHeading? ==> Scan(kinds, i, inSection, counter) == Scan(kinds, i + 1, true, counter)
    ensures !kinds[i].Blank? && !kinds[i].RefHeading? && !inSection ==>
      Scan(kinds, i, inSection, counter) == Scan(kinds, i + 1, false, counter)
    ensures kinds[i].TopHeading? && inSection && counter > 0 ==> Scan(kinds, i, inSection, counter) == []
    ensures (kinds[i].Other? || (kinds[i].TopHeading? && counter == 0)) && inSection ==>
      Scan(kinds, i, inSection, counter) == Scan(kinds, i + 1, true, counter)
    ensures kinds[i].Entry? && inSection ==>
      Scan(kinds, i, inSection, counter) == [kinds[i].text] + Scan(kinds, i + 1, true, counter + 1)
  {
  }

  /** Reading an entry moves its text from the rest of the scan to the
      texts read so far. */
  lemma {:induction false} EntryStep(kinds: seq<LineKind>, i: nat, counter: nat, texts: seq<string>, all: seq<string>)
    requires i < |kinds| && kinds[i].Entry?
    requires all == texts + Scan(kinds, i, true, counter)
    ensures all == (texts + [kinds[i].text]) + Scan(kinds, i + 1, true, counter + 1)
  {
    var rest := Scan(kinds, i + 1, true, counter + 1);
    assert Scan(kinds, i, true, counter) == [kinds[i].text] + rest;
    assert texts + ([kinds[i].text] + rest) == (texts + [kinds[i].text]) + rest;
  }

  /** Appending the reference numbered one past the last. */
  lemma {:induction false} AsReferencesSnoc(texts: seq<string>, x: string, reference: Reference)
    requires reference == Reference(FormatId("ref_", |texts| + 1), x)
    ensures AsReferences(texts + [x]) == AsReferences(texts) + [reference]
  {
    var r, r2 := AsReferences(texts + [x]), AsReferences(texts) + [reference];
    forall k | 0 <= k < |r| ensures r[k] == r2[k] {
      if k < |texts| {
        assert (texts + [x])[k] == texts[k];
      }
    }
  }

  /** `_extract_references`. */
  method ExtractReferences(text: string) returns (references: seq<Reference>)
    ensures references == AsReferences(Scan(Kinds(Lines(text)), 0, false, 0))
  {
    var lines := Lines(text);
    ghost var kinds := Kinds(lines);
    ghost var all := Scan(kinds, 0, false, 0);
    ghost var texts: seq<string> := [];
    references := [];
    var refSection := false;
    var refCounter := 0;
    var i := 0;
    while i < |lines|
      invariant i <= |lines|
      invariant refCounter == |texts|
      invariant references == AsReferences(texts)
      invariant all == texts + Scan(kinds, i, refSection, refCounter)
    {
      var kind := KindOf(lines, kinds, i);
      ScanStep(kinds, i, refSection, refCounter);
      if kind.Blank? {
        assert all == texts + Scan(kinds, i + 1, refSection, refCounter);
      } else if kind.RefHeading? {
        refSection := true;
        assert all == texts + Scan(kinds, i + 1, refSection, refCounter);
      } else if !refSection {
        assert all == texts + Scan(kinds, i + 1, refSection, refCounter);
      } else if kind.TopHeading? && refCounter > 0 {
        assert texts + [] == texts;
        break;
      } else if kind.Entry? {
        var reference := Reference(FormatId("ref_", refCounter + 1), kind.text);
        AsReferencesSnoc(texts, kind.text, reference);
        EntryStep(kinds, i, refCounter, texts, all);
        texts := texts + [kind.text];
        refCounter := refCounter + 1;
        references := references + [reference];
      } else {
        assert all == texts + Scan(kinds, i + 1, refSection, refCounter);
      }
      i := i + 1;
    }
  }

  // ---------------------------------------------------------------- properties

  /** Before the first references heading no line is read: the scan of the
      whole text is the scan from that heading on. */
  lemma {:induction false} NothingBeforeHeading(kinds: seq<LineKind>, i: nat, h: nat)
    requires i <= h <= |kinds|
    requires forall j :: i <= j < h ==> !kinds[j].RefHeading?
    ensures Scan(kinds, i, false, 0) == Scan(kinds, h, false, 0)
    decreases h - i
  {
    if i < h {
      NothingBeforeHeading(kinds, i + 1, h);
    }
  }

  /** A text without a references heading has no references. */
  lemma {:induction false} NoHeadingNoReferences(text: string)
    requires forall j :: 0 <= j < |Lines(text)| ==> !IsReferencesHeading(Strip(Lines(text)[j]))
    ensures Scan(Kinds(Lines(text)), 0, false, 0) == []
  {
    var lines := Lines(text);
    var kinds := Kinds(lines);
    forall j | 0 <= j < |kinds| ensures !kinds[j].RefHeading? {
      KindsAt(lines, j);
    }
    NothingBeforeHeading(kinds, 0, |kinds|);
  }

  /** Inside the references section, a top-level heading ends the scan once
      a reference was read, and is passed over before that. */
  lemma {:induction false} TopHeadingStops(lines: seq<string>, i: nat, counter: nat)
    requires i < |lines|
    requires IsTopHeading(Strip(lines[i])) && !IsReferencesHeading(Strip(lines[i]))
    ensures counter > 0 ==> Scan(Kinds(lines), i, true, counter) == []
    ensures counter == 0 ==> Scan(Kinds(lines), i, true, 0) == Scan(Kinds(lines), i + 1, true, 0)
  {
    assert Strip(lines[i]) != [] by { assert HashEnd(Strip(lines[i]), 0) >= 1; }
    KindsAt(lines, i);
  }

  /** Within the references section, a line other than a heading that yields
      an entry becomes the next reference; the bracketed form is tried first,
      then the numbered one, then the author-year one. */
  lemma {:induction false} EntryRead(lines: seq<string>, i: nat, counter: nat)
    requires i < |lines|
    requires !IsReferencesHeading(Strip(lines[i])) && !IsTopHeading(Strip(lines[i]))
    requires EntryText(Strip(lines[i])).Some?
    ensures Scan(Kinds(lines), i, true, counter)
      == [EntryText(Strip(lines[i])).value] + Scan(Kinds(lines), i + 1, true, counter + 1)
  {
    KindsAt(lines, i);
  }

  /** The reference ids run `ref_001`, `ref_002`, … without a gap, and
      therefore differ pairwise. */
  lemma {:induction false} ReferenceIds(texts: seq<string>)
    ensures forall k :: 0 <= k < |AsReferences(texts)| ==> AsReferences(texts)[k].id == FormatId("ref_", k + 1)
    ensures forall k, l :: 0 <= k < l < |AsReferences(texts)| ==> AsReferences(texts)[k].id != AsReferences(texts)[l].id
  {
    ReferenceIdsNumbered(texts);
    ReferenceIdsDiffer(texts);
  }

  lemma {:induction false} ReferenceIdsNumbered(texts: seq<string>)
    ensures forall k :: 0 <= k < |AsReferences(texts)| ==> AsReferences(texts)[k].id == FormatId("ref_", k + 1)
  {
  }

  lemma {:induction false} ReferenceIdsDiffer(texts: seq<string>)
    ensures forall k, l :: 0 <= k < l < |AsReferences(texts)| ==> AsReferences(texts)[k].id != AsReferences(texts)[l].id
  {
    var r := AsReferences(texts);
    forall k, l | 0 <= k < l < |r| ensures r[k].id != r[l].id {
      assert r[k].id == FormatId("ref_", k + 1) && r[l].id == FormatId("ref_", l + 1);
      FormatIdDistinct("ref_", k + 1, l + 1);
    }
  }
}
