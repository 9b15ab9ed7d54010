/** The regular expressions of the OCR engine, each written as a recognizer
    over the characters of the text. A recognizer reproduces what Python's
    `re` returns for the pattern, including where a greedy or lazy
    quantifier stops and where the next `finditer` search resumes. */
module OcrPatterns {
  import opened Text

  /** One match: where it starts and ends in the text, and its first group. */
  datatype Found = Found(start: nat, end: nat, group: string)

  /** The matches lie inside `[from, n)`, in text order, without overlapping. */
  predicate Ordered(ms: seq<Found>, from: nat, n: nat) {
    (forall k :: 0 <= k < |ms| ==> from <= ms[k].start <= ms[k].end <= n)
    && (forall k, l :: 0 <= k < l < |ms| ==> ms[k].end <= ms[l].start)
  }

  /** Every match lies inside a text of length `n`. */
  predicate InText(ms: seq<Found>, n: nat) {
    forall k :: 0 <= k < |ms| ==> ms[k].start <= ms[k].end <= n
  }

  // ---------------------------------------------------------------- display equations

  /** The five display-equation patterns, in the order they are scanned:
      `$$…$$`, `\[…\]` and the equation, align and gather environments. */
  const DisplayDelimiters: seq<(string, string)> := [
    ("$$", "$$"),
    ("\\[", "\\]"),
    ("\\begin{equation}", "\\end{equation}"),
    ("\\begin{align}", "\\end{align}"),
    ("\\begin{gather}", "\\end{gather}")
  ]

  /** `search` of `opener(.+?)closer` with DOTALL, from `from`. The group is
      lazy, so a match ends at the first closer that leaves at least one
      character inside. When the first opener has no such closer, no later
      opener has one either, so there is no match. */
  function DisplayNext(s: string, opener: string, closer: string, from: nat): (r: Option<Found>)
    ensures r.Some? ==> from <= r.value.start < r.value.end <= |s|
  {
    match IndexOf(s, opener, from)
    case None => None
    case Some(p) =>
      match IndexOf(s, closer, p + |opener| + 1)
      case None => None
      case Some(q) => Some(Found(p, q + |closer|, s[p + |opener|..q]))
  }

  /** `finditer`: each search resumes where the previous match ended. */
  function DisplayMatches(s: string, opener: string, closer: string, from: nat): (r: seq<Found>)
    ensures Ordered(r, from, |s|)
    decreases |s| - from
  {
    match DisplayNext(s, opener, closer, from)
    case None => []
    case Some(m) => [m] + DisplayMatches(s, opener, closer, m.end)
  }

  /** An opener, a non-empty group and the first closer after it. */
  predicate DisplayShaped(s: string, opener: string, closer: string, m: Found) {
    m.start + |opener| < m.end - |closer| + 1
    && MatchAt(s, opener, m.start) && MatchAt(s, closer, m.end - |closer|)
    && m.group == s[m.start + |opener|..m.end - |closer|]
    && (forall j :: m.start + |opener| < j < m.end - |closer| ==> !MatchAt(s, closer, j))
  }

  /** A display match has the shape of the pattern, with the lazy group ending
      at the first closer, and no opener occurs before it. */
  lemma {:induction false} DisplayNextShape(s: string, opener: string, closer: string, from: nat)
    ensures DisplayNext(s, opener, closer, from).Some? ==>
      var m := DisplayNext(s, opener, closer, from).value;
      DisplayShaped(s, opener, closer, m) && forall j :: from <= j < m.start ==> !MatchAt(s, opener, j)
  {
  }

  /** Every match of the scan has the shape of the pattern. */
  lemma {:induction false} DisplayMatchShape(s: string, opener: string, closer: string, from: nat)
    ensures forall m :: m in DisplayMatches(s, opener, closer, from) ==> DisplayShaped(s, opener, closer, m)
    decreases |s| - from
  {
    DisplayNextShape(s, opener, closer, from);
    match DisplayNext(s, opener, closer, from)
    case None =>
    case Some(m) => DisplayMatchShape(s, opener, closer, m.end);
  }

  /** The display matches of the first `k` patterns, pattern by pattern. */
  function DisplayUpTo(s: string, k: nat): (r: seq<Found>)
    requires k <= |DisplayDelimiters|
    ensures InText(r, |s|)
  {
    if k == 0 then []
    else DisplayUpTo(s, k - 1) + DisplayMatches(s, DisplayDelimiters[k - 1].0, DisplayDelimiters[k - 1].1, 0)
  }

  // ---------------------------------------------------------------- inline equations

  /** `(?<!\$)\$(?!\$)`: a lone dollar at `p` that some character follows. */
  predicate InlineOpensAt(s: string, p: nat) {
    p + 1 < |s| && s[p] == '$' && (p == 0 || s[p - 1] != '$') && s[p + 1] != '$'
  }

  /** `(?<!\$)\$(?!\$)` as the closing delimiter at `q`. */
  predicate InlineClosesAt(s: string, q: nat) {
    1 <= q < |s| && s[q] == '$' && s[q - 1] != '$' && (q + 1 == |s| || s[q + 1] != '$')
  }

  /** The first closing dollar at or after `q`; `.` does not cross a newline. */
  function InlineCloser(s: string, q: nat): (r: Option<nat>)
    ensures r.Some? ==> q <= r.value && InlineClosesAt(s, r.value)
    ensures r.Some? ==> forall j :: q <= j < r.value ==> s[j] != '\n'
    decreases |s| - q
  {
    if q >= |s| then None
    else if InlineClosesAt(s, q) then Some(q)
    else if s[q] == '\n' then None
    else InlineCloser(s, q + 1)
  }

  /** `search` of the inline pattern from `from`: a failed attempt moves on by
      one character. */
  function InlineNext(s: string, from: nat): (r: Option<Found>)
    ensures r.Some? ==> from <= r.value.start < r.value.end <= |s|
    decreases |s| - from
  {
    if from >= |s| then None
    else if InlineOpensAt(s, from) && s[from + 1] != '\n' && InlineCloser(s, from + 2).Some? then
      var q := InlineCloser(s, from + 2).value;
      Some(Found(from, q + 1, s[from + 1..q]))
    else InlineNext(s, from + 1)
  }

  /** `finditer` of the inline pattern: a match resumes after its closing dollar. */
  function InlineMatches(s: string, from: nat): (r: seq<Found>)
    ensures Ordered(r, from, |s|)
    decreases |s| - from
  {
    match InlineNext(s, from)
    case None => []
    case Some(m) => [m] + InlineMatches(s, m.end)
  }

  /** A lone opening dollar, a non-empty group on one line and a lone
      closing dollar. */
  predicate InlineShaped(s: string, m: Found) {
    InlineOpensAt(s, m.start) && m.start + 2 < m.end + 1 && InlineClosesAt(s, m.end - 1)
    && m.group == s[m.start + 1..m.end - 1] && '\n' !in m.group
  }

  lemma {:induction false} InlineNextShape(s: string, from: nat)
    ensures InlineNext(s, from).Some? ==> InlineShaped(s, InlineNext(s, from).value)
    decreases |s| - from
  {
    if from < |s| {
      if InlineOpensAt(s, from) && s[from + 1] != '\n' && InlineCloser(s, from + 2).Some? {
        var q := InlineCloser(s, from + 2).value;
        var g := s[from + 1..q];
        forall j | 0 <= j < |g| ensures g[j] != '\n' {
          assert g[j] == s[from + 1 + j];
        }
      } else {
        InlineNextShape(s, from + 1);
      }
    }
  }

  lemma {:induction false} InlineMatchShape(s: string, from: nat)
    ensures forall m :: m in InlineMatches(s, from) ==> InlineShaped(s, m)
    decreases |s| - from
  {
    InlineNextShape(s, from);
    match InlineNext(s, from)
    case None =>
    case Some(m) => InlineMatchShape(s, m.end);
  }

  // ---------------------------------------------------------------- equation labels

  /** `\\label\{(eq:[^}]+)\}` tried at `p`: the group is `eq:` and a non-empty
      run of characters other than `}`, which a `}` must close. */
  function LabelAt(s: string, p: nat): (r: Option<string>)
  {
    if !MatchAt(s, "\\label{eq:", p) then None
    else
      var e := NextChar(s, '}', p + 10);
      if e == p + 10 || e == |s| then None else Some(s[p + 7..e])
  }

  /** `search` of the label pattern from `from`. */
  function FindLabel(s: string, from: nat): (r: Option<string>)
    decreases |s| - from
  {
    if from >= |s| then None
    else if LabelAt(s, from).Some? then LabelAt(s, from)
    else FindLabel(s, from + 1)
  }

  /** A found label starts with `eq:`, has a name after it and contains no `}`. */
  lemma {:induction false} LabelShape(s: string, from: nat)
    ensures FindLabel(s, from).Some? ==>
      var l := FindLabel(s, from).value;
      |l| >= 4 && StartsWith(l, "eq:") && '}' !in l
    decreases |s| - from
  {
    if from < |s| {
      if LabelAt(s, from).Some? {
        var e := NextChar(s, '}', from + 10);
        var l := s[from + 7..e];
        assert l[..3] == s[from + 7..from + 10];
        forall j | 0 <= j < |l| ensures l[j] != '}' {
          assert l[j] == s[from + 7 + j];
          if j < 3 { assert s[from..from + 10][7 + j] == "\\label{eq:"[7 + j]; }
        }
      } else {
        LabelShape(s, from + 1);
      }
    }
  }

  // ---------------------------------------------------------------- markdown headings

  /** End of the run of `#` starting at `i`. */
  function HashEnd(s: string, i: nat): (k: nat)
    requires i <= |s|
    ensures i <= k <= |s|
    ensures forall j :: i <= j < k ==> s[j] == '#'
    ensures k < |s| ==> s[k] != '#'
    decreases |s| - i
  {
    if i == |s| || s[i] != '#' then i else HashEnd(s, i + 1)
  }

  /** The largest `j` in `[lo, hi)` with `s[j]` not a newline. */
  function LastNotNewline(s: string, lo: nat, hi: nat): (r: Option<nat>)
    requires lo <= hi <= |s|
    ensures r.Some? ==> lo <= r.value < hi && s[r.value] != '\n'
    decreases hi - lo
  {
    if hi == lo then None
    else if s[hi - 1] != '\n' then Some(hi - 1)
    else LastNotNewline(s, lo, hi - 1)
  }

  /** A markdown heading: its span, its number of `#` and its stripped title. */
  datatype Heading = Heading(start: nat, end: nat, level: nat, title: string)

  /** `^(#{1,6})\s+(.+)$` with MULTILINE, tried at `p`. The `#` run must be the
      whole run and at most six long. `\s+` is greedy and crosses newlines; `.+`
      then runs to the end of its line. When the whitespace reaches the end of
      the text, `\s+` gives characters back until `.+` can start on one that
      is not a newline. */
  function HeadingAt(s: string, p: nat): (r: Option<Heading>)
    requires p <= |s|
    ensures r.Some? ==> p == r.value.start < r.value.end <= |s| && 1 <= r.value.level <= 6
  {
    if p > 0 && s[p - 1] != '\n' then None
    else
      var h := HashEnd(s, p);
      if h == p || h - p > 6 || h == |s| || !IsSpace(s[h]) then None
      else
        var w := SkipSpace(s, h);
        var b := if w < |s| then Some(w) else LastNotNewline(s, h + 1, w);
        match b
        case None => None
        case Some(j) =>
          var e := NextChar(s, '\n', j);
          Some(Heading(p, e, h - p, Strip(s[j..e])))
  }

  /** `finditer` of the heading pattern from `from`. */
  function Headings(s: string, from: nat): (r: seq<Heading>)
    requires from <= |s|
    ensures forall k :: 0 <= k < |r| ==> from <= r[k].start < r[k].end <= |s| && 1 <= r[k].level <= 6
    ensures forall k, l :: 0 <= k < l < |r| ==> r[k].end <= r[l].start
    decreases |s| - from
  {
    if from == |s| then []
    else
      match HeadingAt(s, from)
      case Some(m) => [m] + Headings(s, m.end)
      case None => Headings(s, from + 1)
  }

  // ---------------------------------------------------------------- LaTeX section commands

  /** End of the run of `sub` repetitions starting at `i`. */
  function SubEnd(s: string, i: nat): (k: nat)
    requires i <= |s|
    ensures i <= k <= |s|
    decreases |s| - i
  {
    if MatchAt(s, "sub", i) then SubEnd(s, i + 3) else i
  }

  /** `\\(?:sub)*section\*?\{([^}]+)\}` tried at `p`. */
  function LatexSectionAt(s: string, p: nat): (r: Option<Found>)
    requires p <= |s|
    ensures r.Some? ==> p == r.value.start < r.value.end <= |s|
  {
    if p == |s| || s[p] != '\\' then None
    else
      var a := SubEnd(s, p + 1);
      if !MatchAt(s, "section", a) then None
      else
        var b := if a + 7 < |s| && s[a + 7] == '*' then a + 8 else a + 7;
        if b >= |s| || s[b] != '{' then None
        else
          var e := NextChar(s, '}', b + 1);
          if e == b + 1 || e == |s| then None else Some(Found(p, e + 1, s[b + 1..e]))
  }

  /** `finditer` of the LaTeX section pattern from `from`. */
  function LatexSections(s: string, from: nat): (r: seq<Found>)
    requires from <= |s|
    ensures Ordered(r, from, |s|)
    decreases |s| - from
  {
    if from == |s| then []
    else
      match LatexSectionAt(s, from)
      case Some(m) => [m] + LatexSections(s, m.end)
      case None => LatexSections(s, from + 1)
  }
}
