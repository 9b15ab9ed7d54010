/** Sections of the OCR markdown: `parse_sections` and the section lookup
    `_find_containing_section` that labels each equation. */
module OcrSections {
  import opened Text
  import opened Models
  import opened OcrPatterns

  // ---------------------------------------------------------------- parse_sections

  /** Where the body of heading `i` ends: at the start of the next heading, or
      at the end of the text. */
  function BodyEnd(hs: seq<Heading>, i: nat, n: nat): nat
    requires i < |hs|
  {
    if i + 1 < |hs| then hs[i + 1].start else n
  }

  /** `parse_sections`: one section per heading, in text order. */
  function ParseSections(text: string): (r: seq<Section>)
    ensures |r| == |Headings(text, 0)|
  {
    var hs := Headings(text, 0);
    seq(|hs|, i requires 0 <= i < |hs| =>
      Section(hs[i].title, hs[i].level, Strip(text[hs[i].end..BodyEnd(hs, i, |text|)])))
  }

  /** Each section takes the level (one to six `#`) and stripped title of its
      heading, and its content is the stripped text between the end of that
      heading and the start of the next one (or the end of the text). */
  lemma {:induction false} SectionsFollowHeadings(text: string, i: nat)
    requires i < |ParseSections(text)|
    ensures var hs := Headings(text, 0);
      var sec := ParseSections(text)[i];
      1 <= sec.level <= 6 && sec.level == hs[i].level && sec.title == hs[i].title
      && IsStripped(sec.title) && IsStripped(sec.content)
      && hs[i].end <= BodyEnd(hs, i, |text|) <= |text|
      && sec.content == Strip(text[hs[i].end..BodyEnd(hs, i, |text|)])
  {
    var hs := Headings(text, 0);
    HeadingsFound(text, 0, i);
    HeadingTitleStripped(text, hs[i].start);
    StripProperties(text[hs[i].end..BodyEnd(hs, i, |text|)]);
  }

  /** A heading's title has no surrounding whitespace. */
  lemma {:induction false} HeadingTitleStripped(s: string, p: nat)
    requires p <= |s|
    ensures HeadingAt(s, p).Some? ==> IsStripped(HeadingAt(s, p).value.title)
  {
    if HeadingAt(s, p).Some? {
      var h := HashEnd(s, p);
      var w := SkipSpace(s, h);
      var j := if w < |s| then w else LastNotNewline(s, h + 1, w).value;
      StripProperties(s[j..NextChar(s, '\n', j)]);
    }
  }

  /** Each element of `Headings` is what `HeadingAt` finds at its start. */
  lemma {:induction false} HeadingsFound(s: string, from: nat, i: nat)
    requires from <= |s| && i < |Headings(s, from)|
    ensures HeadingAt(s, Headings(s, from)[i].start) == Some(Headings(s, from)[i])
    decreases |s| - from
  {
    match HeadingAt(s, from)
    case Some(m) =>
      if i > 0 { HeadingsFound(s, m.end, i - 1); }
    case None =>
      HeadingsFound(s, from + 1, i);
  }

  // ---------------------------------------------------------------- _find_containing_section

  /** A section marker: the start of a heading or LaTeX section command, and
      its stripped title. */
  datatype Marker = Marker(pos: nat, title: string)

  /** The markdown heading markers followed by the LaTeX section markers, each
      list in text order. */
  function Markers(text: string): (r: seq<Marker>)
  {
    var hs := Headings(text, 0);
    var ls := LatexSections(text, 0);
    seq(|hs|, k requires 0 <= k < |hs| => Marker(hs[k].start, hs[k].title))
    + seq(|ls|, k requires 0 <= k < |ls| => Marker(ls[k].start, Strip(ls[k].group)))
  }

  predicate SortedByPos(ms: seq<Marker>) {
    forall i, j :: 0 <= i < j < |ms| ==> ms[i].pos <= ms[j].pos
  }

  /** Inserts `m` after every marker whose position is not greater. */
  function Insert(m: Marker, ms: seq<Marker>): (r: seq<Marker>)
    ensures multiset(r) == multiset(ms) + multiset{m}
  {
    if ms == [] || m.pos < ms[0].pos then [m] + ms
    else
      assert ms == [ms[0]] + ms[1..];
      [ms[0]] + Insert(m, ms[1..])
  }

  /** A marker no later than any of a sorted list can go in front of it. */
  lemma ConsSorted(a: Marker, rest: seq<Marker>)
    requires SortedByPos(rest)
    requires forall x :: x in rest ==> a.pos <= x.pos
    ensures SortedByPos([a] + rest)
  {
    var r := [a] + rest;
    forall i, j | 0 <= i < j < |r| ensures r[i].pos <= r[j].pos {
      assert r[j] == rest[j - 1];
      if i > 0 { assert r[i] == rest[i - 1]; }
    }
  }

  lemma {:induction false} InsertSorted(m: Marker, ms: seq<Marker>)
    requires SortedByPos(ms)
    ensures SortedByPos(Insert(m, ms))
  {
    if ms == [] || m.pos < ms[0].pos {
      ConsSorted(m, ms);
    } else {
      var tail := ms[1..];
      var rest := Insert(m, tail);
      assert SortedByPos(tail);
      InsertSorted(m, tail);
      forall x | x in rest ensures ms[0].pos <= x.pos {
        assert x in multiset(rest);
        if x != m {
          assert x in multiset(tail);
          var k :| 0 <= k < |tail| && tail[k] == x;
          assert ms[k + 1] == x;
        }
      }
      ConsSorted(ms[0], rest);
      assert Insert(m, ms) == [ms[0]] + rest;
    }
  }

  /** `list.sort(key=position)`: a stable insertion sort. */
  function SortByPos(ms: seq<Marker>): (r: seq<Marker>)
    ensures multiset(r) == multiset(ms)
    ensures SortedByPos(r)
  {
    if ms == [] then []
    else
      assert ms == ms[..|ms| - 1] + [ms[|ms| - 1]];
      InsertSorted(ms[|ms| - 1], SortByPos(ms[..|ms| - 1]));
      Insert(ms[|ms| - 1], SortByPos(ms[..|ms| - 1]))
  }

  /** The title of the last marker, in list order, at or before `pos`; the scan
      stops at the first marker past it. */
  function LastAtOrBefore(ms: seq<Marker>, pos: nat, current: string): string
  {
    if ms == [] || ms[0].pos > pos then current
    else LastAtOrBefore(ms[1..], pos, ms[0].title)
  }

  /** The section that contains position `pos`. */
  function ContainingSection(text: string, pos: nat): string
  {
    LastAtOrBefore(SortByPos(Markers(text)), pos, "Preamble")
  }

  /** `_find_containing_section`: sorts the markers, then keeps the title of
      each marker until one lies past the position. */
  method FindContainingSection(text: string, pos: nat) returns (title: string)
    ensures title == ContainingSection(text, pos)
  {
    var markers := SortByPos(Markers(text));
    title := "Preamble";
    var i := 0;
    while i < |markers|
      invariant i <= |markers|
      invariant LastAtOrBefore(markers[i..], pos, title) == ContainingSection(text, pos)
    {
      if markers[i].pos > pos {
        break;
      }
      assert markers[i..][1..] == markers[i + 1..];
      title := markers[i].title;
      i := i + 1;
    }
  }

  /** On a sorted list, the scan returns the title of a marker at or before the
      position that no other such marker follows, or `current` when there is
      none. */
  lemma {:induction false} LastAtOrBeforeIsLast(ms: seq<Marker>, pos: nat, current: string)
    requires SortedByPos(ms)
    ensures (forall m :: m in ms ==> m.pos > pos) ==> LastAtOrBefore(ms, pos, current) == current
    ensures (exists m :: m in ms && m.pos <= pos) ==>
      exists m :: m in ms && m.pos <= pos && LastAtOrBefore(ms, pos, current) == m.title
        && forall m' :: m' in ms && m'.pos <= pos ==> m'.pos <= m.pos
  {
    if ms != [] && ms[0].pos <= pos {
      var rest := ms[1..];
      LastAtOrBeforeIsLast(rest, pos, ms[0].title);
      if forall m :: m in rest ==> m.pos > pos {
        assert forall m' :: m' in ms && m'.pos <= pos ==> m' == ms[0];
      }
    } else if ms != [] {
      assert forall m :: m in ms ==> m.pos > pos;
    }
  }

  /** `_find_containing_section` returns the title of the last marker at or
      before the position, and "Preamble" when none is. */
  lemma {:induction false} ContainingSectionIsLastMarker(text: string, pos: nat)
    ensures (forall m :: m in Markers(text) ==> m.pos > pos) ==> ContainingSection(text, pos) == "Preamble"
    ensures (exists m :: m in Markers(text) && m.pos <= pos) ==>
      exists m :: m in Markers(text) && m.pos <= pos && ContainingSection(text, pos) == m.title
        && forall m' :: m' in Markers(text) && m'.pos <= pos ==> m'.pos <= m.pos
  {
    var ms := Markers(text);
    var sorted := SortByPos(ms);
    assert forall m :: m in ms <==> m in sorted by {
      forall m ensures m in ms <==> m in sorted {
        assert m in ms <==> m in multiset(ms);
        assert m in sorted <==> m in multiset(sorted);
      }
    }
    LastAtOrBeforeIsLast(sorted, pos, "Preamble");
  }
}
