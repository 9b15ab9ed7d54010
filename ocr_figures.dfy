/** The markdown fallback of figure extraction (`_extract_figures_from_markdown`):
    every "Figure N" or "Fig. N" caption found by the caption pattern becomes a
    figure, numbered in text order. */
module OcrFigures {
  import opened Text
  import opened Models
  import opened OcrPatterns

  // ---------------------------------------------------------------- the caption pattern

  /** Where the figure keyword ends: `Figure`, or else `Fig` with an optional
      dot, ignoring case. */
  function FigureKeywordEnd(s: string, a: nat): (r: Option<nat>)
    requires a <= |s|
    ensures r.Some? ==> a + 3 <= r.value <= |s| && MatchFold(s, "fig", a)
  {
    if MatchFold(s, "figure", a) then
      MatchFoldPrefix(s, "figure", a, 3);
      assert "figure"[..3] == "fig";
      Some(a + 6)
    else if MatchFold(s, "fig", a) then Some(if a + 3 < |s| && s[a + 3] == '.' then a + 4 else a + 3)
    else None
  }

  /** How many characters `.` can take from `y`: up to the next newline. */
  function LineRest(s: string, y: nat): nat
    requires y <= |s|
  {
    NextChar(s, '\n', y) - y
  }

  /** Where `(.{5,200})` starts after backtracking. The greedy path reaches
      `hi`; when fewer than five characters follow on that line, the
      whitespace, the optional punctuation and stars, and then the digits give
      characters back one at a time, down to one digit at `lo`. The group
      starts at the last position, counting down, with at least five
      characters before the end of its line. */
  function GroupStart(s: string, lo: nat, hi: nat): (r: Option<nat>)
    requires lo <= hi <= |s|
    ensures r.Some? ==> lo <= r.value <= hi && LineRest(s, r.value) >= 5
    ensures r.Some? ==> forall y :: r.value < y <= hi ==> LineRest(s, y) < 5
    ensures r.None? ==> forall y :: lo <= y <= hi ==> LineRest(s, y) < 5
    decreases hi - lo
  {
    if LineRest(s, hi) >= 5 then Some(hi)
    else if hi == lo then None
    else GroupStart(s, lo, hi - 1)
  }

  /** What the caption pattern's group always is: five to two hundred
      characters on one line. */
  predicate OneLineGroup(g: string) {
    5 <= |g| <= 200 && '\n' !in g
  }

  /** A group of `n` characters from `y`, taking the rest of the line or
      two hundred characters, holds no newline and ends at a newline, at the
      end of the text or after two hundred characters. */
  lemma {:induction false} GroupWithinLine(s: string, p: nat, y: nat, n: nat, r: Option<Found>)
    requires y + n <= |s| && 5 <= n <= 200 && n <= LineRest(s, y) && (n == 200 || n == LineRest(s, y))
    requires r == Some(Found(p, y + n, s[y..y + n]))
    ensures r.Some? ==> OneLineGroup(r.value.group) && |r.value.group| <= r.value.end
    ensures r.Some? ==> r.value.group == s[r.value.end - |r.value.group|..r.value.end]
    ensures r.Some? ==> |r.value.group| == 200 || r.value.end == |s| || s[r.value.end] == '\n'
  {
    var t := s[y..y + n];
    forall k | 0 <= k < n ensures t[k] != '\n' {
      assert t[k] == s[y + k];
    }
    assert r.value.end - |r.value.group| == y;
  }

  /** The part of the caption pattern after the keyword's digits, which
      lie in `[d, e)`: `\*?\*?[.:\-]?\s*(.{5,200})`, with the digits
      themselves able to give characters back. The result is the match that
      started at `p`. */
  function GroupAfterDigits(s: string, p: nat, d: nat, e: nat): (r: Option<Found>)
    requires p <= d < e <= |s|
    ensures r.Some? ==> r.value.start == p && d < r.value.end <= |s|
    ensures r.Some? ==> OneLineGroup(r.value.group) && |r.value.group| <= r.value.end
    ensures r.Some? ==> r.value.group == s[r.value.end - |r.value.group|..r.value.end]
    ensures r.Some? ==> |r.value.group| == 200 || r.value.end == |s| || s[r.value.end] == '\n'
  {
    var st := StarsEnd(s, e);
    var pu := if st < |s| && (s[st] == '.' || s[st] == ':' || s[st] == '-') then st + 1 else st;
    match GroupStart(s, d + 1, SkipSpace(s, pu))
    case None => None
    case Some(y) =>
      var n := if LineRest(s, y) < 200 then LineRest(s, y) else 200;
      var r := Some(Found(p, y + n, s[y..y + n]));
      GroupWithinLine(s, p, y, n, r);
      r
  }

  /** The part of the caption pattern before the group, up to the digits:
      `\s*\*?\*?(?:Figure|Fig\.?)\s*(\d+)` from `p`. The result is where
      the keyword starts, and where the digits start and end. */
  function DigitsAfterKeyword(s: string, p: nat): (r: Option<(nat, nat, nat)>)
    requires p <= |s|
    ensures r.Some? ==> (p <= r.value.0 < r.value.1 < r.value.2 <= |s| && MatchFold(s, "fig", r.value.0))
  {
    var a := StarsEnd(s, SkipSpace(s, p));
    match FigureKeywordEnd(s, a)
    case None => None
    case Some(b) =>
      var d := SkipSpace(s, b);
      var e := DigitEnd(s, d);
      if e == d then None else Some((a, d, e))
  }

  /** `(?:^|\n)\s*\*?\*?(?:Figure|Fig\.?)\s*(\d+)\*?\*?[.:\-]?\s*(.{5,200})`
      with IGNORECASE, tried at `p`: the start of the text or a newline, then
      whitespace (newlines included), up to two stars, the keyword, digits,
      up to two stars, one optional `.`, `:` or `-`, whitespace, and a group
      of five to two hundred characters that does not cross a newline. The
      group is the second group of the pattern.

      A match starts at the start of the text or at a newline, spans a
      case-insensitive `fig`, and its group is the five to two hundred
      characters that end it, none of them a newline; the group is as long as
      it can be, stopping at two hundred characters or at the end of its
      line. */
  function FigureAt(s: string, p: nat): (r: Option<Found>)
    requires p <= |s|
    ensures r.Some? ==> p == r.value.start < r.value.end <= |s| && (p == 0 || s[p] == '\n')
    ensures r.Some? ==> exists a :: p <= a < r.value.end && MatchFold(s, "fig", a)
    ensures r.Some? ==> OneLineGroup(r.value.group) && |r.value.group| <= r.value.end
    ensures r.Some? ==> r.value.group == s[r.value.end - |r.value.group|..r.value.end]
    ensures r.Some? ==> |r.value.group| == 200 || r.value.end == |s| || s[r.value.end] == '\n'
  {
    if p == |s| || (p > 0 && s[p] != '\n') then None else CaptionFrom(s, p)
  }

  /** The rest of the caption pattern once its start at `p` is anchored. */
  function CaptionFrom(s: string, p: nat): (r: Option<Found>)
    requires p <= |s|
    ensures r.Some? ==> p == r.value.start < r.value.end <= |s|
    ensures r.Some? ==> exists a :: p <= a < r.value.end && MatchFold(s, "fig", a)
    ensures r.Some? ==> OneLineGroup(r.value.group) && |r.value.group| <= r.value.end
    ensures r.Some? ==> r.value.group == s[r.value.end - |r.value.group|..r.value.end]
    ensures r.Some? ==> |r.value.group| == 200 || r.value.end == |s| || s[r.value.end] == '\n'
  {
    match DigitsAfterKeyword(s, p)
    case None => None
    case Some(found) =>
      var r := GroupAfterDigits(s, p, found.1, found.2);
      assert r.Some? ==> p <= found.0 < r.value.end && MatchFold(s, "fig", found.0);
      r
  }

  /** `finditer` of the caption pattern from `from`. */
  function FigureMatches(s: string, from: nat): (r: seq<Found>)
    requires from <= |s|
    ensures forall k :: 0 <= k < |r| ==> from <= r[k].start < r[k].end <= |s|
    ensures forall k, l :: 0 <= k < l < |r| ==> r[k].end <= r[l].start
    ensures forall k :: 0 <= k < |r| ==> OneLineGroup(r[k].group)
    decreases |s| - from
  {
    if from == |s| then []
    else
      match FigureAt(s, from)
      case Some(m) =>
        ConsMatches(m, FigureMatches(s, m.end), from, |s|);
        [m] + FigureMatches(s, m.end)
      case None => FigureMatches(s, from + 1)
  }

  /** A match followed by later matches keeps the scan's ordering. */
  lemma {:induction false} ConsMatches(m: Found, rest: seq<Found>, from: nat, n: nat)
    requires from <= m.start < m.end <= n && OneLineGroup(m.group)
    requires forall k :: 0 <= k < |rest| ==> m.end <= rest[k].start < rest[k].end <= n
    requires forall k, l :: 0 <= k < l < |rest| ==> rest[k].end <= rest[l].start
    requires forall k :: 0 <= k < |rest| ==> OneLineGroup(rest[k].group)
    ensures forall k :: 0 <= k < |[m] + rest| ==> from <= ([m] + rest)[k].start < ([m] + rest)[k].end <= n
    ensures forall k, l :: 0 <= k < l < |[m] + rest| ==> ([m] + rest)[k].end <= ([m] + rest)[l].start
    ensures forall k :: 0 <= k < |[m] + rest| ==> OneLineGroup(([m] + rest)[k].group)
  {
    var r := [m] + rest;
    forall k | 0 <= k < |r| ensures from <= r[k].start < r[k].end <= n && OneLineGroup(r[k].group) {
      if k > 0 {
        assert r[k] == rest[k - 1];
      }
    }
    forall k, l | 0 <= k < l < |r| ensures r[k].end <= r[l].start {
      assert r[l] == rest[l - 1];
      if k > 0 {
        assert r[k] == rest[k - 1];
      }
    }
  }

  /** A text in which `fig` never occurs, in any case, yields no caption. */
  lemma {:induction false} NoKeywordNoMatches(s: string, from: nat)
    requires from <= |s|
    requires forall a :: 0 <= a <= |s| ==> !MatchFold(s, "fig", a)
    ensures FigureMatches(s, from) == []
    decreases |s| - from
  {
    if from < |s| {
      if FigureAt(s, from).Some? {
        assert false;
      }
      NoKeywordNoMatches(s, from + 1);
    }
  }

  // ---------------------------------------------------------------- the figures

  /** `m.group(2).strip().rstrip("*")`. */
  function CaptionText(group: string): (r: string)
    ensures |r| <= |group|
  {
    TrimEndChar(Strip(group), '*')
  }

  /** The caption made from a one-line group is at most two hundred
      characters, none of them a newline. */
  lemma {:induction false} CaptionTextOneLine(g: string)
    requires OneLineGroup(g)
    ensures |CaptionText(g)| <= 200 && '\n' !in CaptionText(g)
  {
    var c := CaptionText(g);
    StripIsSlice(g);
    assert c == Strip(g)[..|c|];
    forall i | 0 <= i < |c| ensures c[i] != '\n' {
      assert c[i] == g[StripStart(g) + i];
    }
  }

  /** The `k`-th figure of the fallback: numbered from one, carrying the
      caption and leaving every other field at its default. */
  function FigureOfMatch(m: Found, n: nat): Figure {
    Figure(FormatId("fig_", n), None, Some(CaptionText(m.group)), None, None)
  }

  lemma {:induction false} FigureOfMatchFields(m: Found, n: nat, f: Figure)
    requires OneLineGroup(m.group) && f == FigureOfMatch(m, n)
    ensures f.id == FormatId("fig_", n) && f.caption == Some(CaptionText(m.group))
    ensures |f.caption.value| <= 200 && '\n' !in f.caption.value
  {
    CaptionTextOneLine(m.group);
  }

  /** The loop of `_extract_figures_from_markdown`: one figure per match,
      with a counter for the ids. */
  method NumberFigures(ms: seq<Found>) returns (figures: seq<Figure>)
    ensures |figures| == |ms|
    ensures forall k :: 0 <= k < |ms| ==> figures[k] == FigureOfMatch(ms[k], k + 1)
  {
    figures := [];
    var counter := 0;
    for k := 0 to |ms|
      invariant counter == k == |figures|
      invariant forall j :: 0 <= j < k ==> figures[j] == FigureOfMatch(ms[j], j + 1)
    {
      var captionText := CaptionText(ms[k].group);
      counter := counter + 1;
      var figure := Figure(FormatId("fig_", counter), None, Some(captionText), None, None);
      assert figure == FigureOfMatch(ms[k], k + 1);
      var next := figures + [figure];
      forall j | 0 <= j <= k ensures next[j] == FigureOfMatch(ms[j], j + 1) {
        if j < k {
          assert next[j] == figures[j];
        }
      }
      figures := next;
    }
  }

  /** `_extract_figures_from_markdown`: one figure per caption match, in text
      order. */
  method ExtractFiguresFromMarkdown(text: string) returns (figures: seq<Figure>)
    ensures |figures| == |FigureMatches(text, 0)|
    ensures forall k :: 0 <= k < |figures| ==> figures[k] == FigureOfMatch(FigureMatches(text, 0)[k], k + 1)
  {
    figures := NumberFigures(FigureMatches(text, 0));
  }

  /** The figures of the caption fallback as a value: one per match,
      numbered from one. */
  function MatchFigures(ms: seq<Found>): (r: seq<Figure>)
    ensures |r| == |ms| && forall k :: 0 <= k < |ms| ==> r[k] == FigureOfMatch(ms[k], k + 1)
  {
    seq(|ms|, k requires 0 <= k < |ms| => FigureOfMatch(ms[k], k + 1))
  }

  /** Figures numbered from matches with one-line groups have the id `fig_`
      and their position from one, and a caption of at most two hundred
      characters, none of them a newline, that is the stripped group of the
      match with trailing stars removed. */
  lemma {:induction false} NumberedFigures(ms: seq<Found>, figures: seq<Figure>)
    requires |figures| == |ms| && forall k :: 0 <= k < |ms| ==> OneLineGroup(ms[k].group)
    requires forall k :: 0 <= k < |ms| ==> figures[k] == FigureOfMatch(ms[k], k + 1)
    ensures forall k :: 0 <= k < |figures| ==>
      figures[k].id == FormatId("fig_", k + 1) && figures[k].caption == Some(CaptionText(ms[k].group))
      && |figures[k].caption.value| <= 200 && '\n' !in figures[k].caption.value
  {
    forall k | 0 <= k < |figures|
      ensures figures[k].id == FormatId("fig_", k + 1) && figures[k].caption == Some(CaptionText(ms[k].group))
      && |figures[k].caption.value| <= 200 && '\n' !in figures[k].caption.value
    {
      FigureOfMatchFields(ms[k], k + 1, figures[k]);
    }
  }

  /** Figures numbered from one have pairwise distinct ids. */
  lemma {:induction false} NumberedIdsDistinct(figures: seq<Figure>)
    requires forall k :: 0 <= k < |figures| ==> figures[k].id == FormatId("fig_", k + 1)
    ensures forall k, l :: 0 <= k < l < |figures| ==> figures[k].id != figures[l].id
  {
    forall k, l | 0 <= k < l < |figures| ensures figures[k].id != figures[l].id {
      if figures[k].id == figures[l].id {
        FormatIdInjective("fig_", k + 1, l + 1);
      }
    }
  }

  /** Each fallback figure has the id `fig_` and its position from one, and
      a caption of at most two hundred characters, none of them a newline;
      the ids are pairwise distinct. */
  lemma {:induction false} FallbackFigures(text: string, figures: seq<Figure>)
    requires |figures| == |FigureMatches(text, 0)|
    requires forall k :: 0 <= k < |figures| ==> figures[k] == FigureOfMatch(FigureMatches(text, 0)[k], k + 1)
    ensures forall k :: 0 <= k < |figures| ==>
      figures[k].id == FormatId("fig_", k + 1) && figures[k].caption.Some?
      && |figures[k].caption.value| <= 200 && '\n' !in figures[k].caption.value
    ensures forall k, l :: 0 <= k < l < |figures| ==> figures[k].id != figures[l].id
  {
    NumberedFigures(FigureMatches(text, 0), figures);
    NumberedIdsDistinct(figures);
  }
}
