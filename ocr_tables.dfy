/** The markdown fallback of table extraction (`_extract_tables_from_markdown`):
    a scan over the lines of the OCR text that turns each qualifying run of
    pipe-delimited lines into a table. */
module OcrTables {
  import opened Text
  import opened Models

  // ---------------------------------------------------------------- line classes

  /** A row of a pipe table: it contains `|` and starts with `|` once stripped. */
  predicate IsTableLine(l: string) {
    ContainsChar(l, '|') && StartsWith(Strip(l), "|")
  }

  predicate IsSeparatorChar(c: char) {
    IsSpace(c) || c == '-' || c == '|' || c == ':'
  }

  /** `^\s*\|[\s\-\|:]+\|\s*$`: only whitespace, dashes, pipes and colons, and
      once stripped a pipe at each end with at least one character between. */
  predicate IsSeparatorRow(l: string) {
    (forall k :: 0 <= k < |l| ==> IsSeparatorChar(l[k]))
    && var t := Strip(l); |t| >= 3 && t[0] == '|' && t[|t| - 1] == '|'
  }

  // ---------------------------------------------------------------- caption line

  /** Where the table keyword ends: `Table`, or else `Tab` with an optional
      dot, ignoring case. */
  function TableKeywordEnd(c: string, a: nat): (r: Option<nat>)
    requires a <= |c|
    ensures r.Some? ==> a + 3 <= r.value <= |c|
  {
    if MatchFold(c, "table", a) then Some(a + 5)
    else if MatchFold(c, "tab", a) then Some(if a + 3 < |c| && c[a + 3] == '.' then a + 4 else a + 3)
    else None
  }

  /** The group of a trailing `\*?\*?\s*(.+)` on a line without newlines: the
      rest after the stars and spaces, or, when they use up the line, the
      one character that backtracking hands back to `.+`. */
  function RestGroup(r: string): (g: Option<string>)
    ensures g.Some? ==> g.value != [] && EndsWith(r, g.value)
  {
    var k := StarsEnd(r, 0);
    var w := SkipSpace(r, k);
    if w < |r| then Some(r[w..])
    else if w > k then Some(r[w - 1..])
    else if k > 0 then Some(r[k - 1..])
    else None
  }

  /** `re.match(r"^\*?\*?(?:Table|Tab\.?)\s*\d+[.:]\*?\*?\s*(.+)", line.strip(),
      re.IGNORECASE)`: group 1 of the caption line, if it is one. */
  function CaptionOf(line: string): (r: Option<string>)
    ensures r.Some? ==> r.value != [] && EndsWith(Strip(line), r.value)
  {
    var c := Strip(line);
    var a := StarsEnd(c, 0);
    match TableKeywordEnd(c, a)
    case None => None
    case Some(b) =>
      var d := SkipSpace(c, b);
      var e := DigitEnd(c, d);
      if e == d || e == |c| || (c[e] != '.' && c[e] != ':') then None
      else
        var g := RestGroup(c[e + 1..]);
        if g.None? then None
        else
          EndsWithSuffix(c, e + 1, g.value);
          g
  }

  /** A caption line names the table within its first characters. */
  lemma {:induction false} CaptionNamesTable(line: string)
    ensures CaptionOf(line).Some? ==> exists a :: 0 <= a <= 2 && MatchFold(Strip(line), "tab", a)
  {
    var c := Strip(line);
    var a := StarsEnd(c, 0);
    if CaptionOf(line).Some? {
      if MatchFold(c, "table", a) {
        MatchFoldPrefix(c, "table", a, 3);
        assert "table"[..3] == "tab";
      }
      assert MatchFold(c, "tab", a);
    }
  }

  // ---------------------------------------------------------------- runs and tables

  /** Which lines are table lines. */
  function TableFlags(lines: seq<string>): (f: seq<bool>)
    ensures |f| == |lines|
  {
    seq(|lines|, j requires 0 <= j < |lines| => IsTableLine(lines[j]))
  }

  /** End of the run of table lines that starts at `i`. */
  function RunEnd(flags: seq<bool>, i: nat): (e: nat)
    requires i <= |flags|
    ensures i <= e <= |flags|
    ensures forall j :: i <= j < e ==> flags[j]
    ensures e < |flags| ==> !flags[e]
    decreases |flags| - i
  {
    if i < |flags| && flags[i] then RunEnd(flags, i + 1) else i
  }

  /** A run `[s, e)` becomes a table when it has a header, a separator row
      and at least one data row. */
  predicate Qualifies(lines: seq<string>, s: nat, e: nat)
    requires s <= e <= |lines|
  {
    e - s >= 3 && IsSeparatorRow(lines[s + 1])
  }

  /** The qualifying runs met by the scan from line `i`, in order. */
  function Runs(lines: seq<string>, flags: seq<bool>, i: nat): seq<(nat, nat)>
    requires |flags| == |lines| && i <= |lines|
    decreases |lines| - i
  {
    if i == |lines| then []
    else if flags[i] then
      var e := RunEnd(flags, i);
      (if Qualifies(lines, i, e) then [(i, e)] else []) + Runs(lines, flags, e)
    else Runs(lines, flags, i + 1)
  }

  /** `[s, e)` is a maximal run of set flags: a maximal run of table lines. */
  predicate MaximalRun(flags: seq<bool>, s: nat, e: nat) {
    s < e <= |flags|
    && (forall j :: s <= j < e ==> flags[j])
    && (e == |flags| || !flags[e])
    && (s == 0 || !flags[s - 1])
  }

  /** Runs in text order, without overlapping. */
  predicate RunsOrdered(rs: seq<(nat, nat)>) {
    forall k, l :: 0 <= k < l < |rs| ==> rs[k].1 <= rs[l].0
  }

  lemma {:induction false} RunsOrderedCons(r: (nat, nat), rs: seq<(nat, nat)>)
    requires RunsOrdered(rs) && forall x :: x in rs ==> r.1 <= x.0
    ensures RunsOrdered([r] + rs)
  {
    forall k, l | 0 <= k < l < |[r] + rs| ensures ([r] + rs)[k].1 <= ([r] + rs)[l].0 {
      assert ([r] + rs)[l] == rs[l - 1] && rs[l - 1] in rs;
      if k > 0 {
        assert ([r] + rs)[k] == rs[k - 1];
      }
    }
  }

  /** Every run the scan keeps is a maximal qualifying run of table lines,
      and runs come in text order without overlapping. */
  lemma {:induction false} RunsSound(lines: seq<string>, flags: seq<bool>, i: nat)
    requires |flags| == |lines| && i <= |lines|
    requires i == 0 || i == |lines| || !flags[i - 1] || !flags[i]
    ensures forall r :: r in Runs(lines, flags, i) ==>
      i <= r.0 && MaximalRun(flags, r.0, r.1) && Qualifies(lines, r.0, r.1)
    ensures RunsOrdered(Runs(lines, flags, i))
    decreases |lines| - i
  {
    if i < |lines| {
      if flags[i] {
        var e := RunEnd(flags, i);
        RunsSound(lines, flags, e);
        var rest := Runs(lines, flags, e);
        if Qualifies(lines, i, e) {
          RunsOrderedCons((i, e), rest);
        }
      } else {
        RunsSound(lines, flags, i + 1);
      }
    }
  }

  lemma {:induction false} RunEndOfMaximal(flags: seq<bool>, s: nat, j: nat, e: nat)
    requires s <= j <= e && MaximalRun(flags, s, e)
    ensures RunEnd(flags, j) == e
    decreases e - j
  {
    if j < e {
      RunEndOfMaximal(flags, s, j + 1, e);
    }
  }

  /** Every maximal qualifying run of table lines after the scan's start is
      kept. */
  lemma {:induction false} RunsComplete(lines: seq<string>, flags: seq<bool>, i: nat, s: nat, e: nat)
    requires |flags| == |lines| && i <= s
    requires MaximalRun(flags, s, e) && Qualifies(lines, s, e)
    ensures (s, e) in Runs(lines, flags, i)
    decreases |lines| - i
  {
    if i == s {
      RunEndOfMaximal(flags, s, s, e);
      assert Runs(lines, flags, s) == [(s, e)] + Runs(lines, flags, e);
    } else if flags[i] {
      var f := RunEnd(flags, i);
      assert !flags[s - 1];
      RunsComplete(lines, flags, f, s, e);
      var kept: seq<(nat, nat)> := if Qualifies(lines, i, f) then [(i, f)] else [];
      assert Runs(lines, flags, i) == kept + Runs(lines, flags, f);
    } else {
      RunsComplete(lines, flags, i + 1, s, e);
      assert Runs(lines, flags, i) == Runs(lines, flags, i + 1);
    }
  }

  /** The caption sniffed from the line right after a run, when there is one. */
  function CaptionAfter(lines: seq<string>, e: nat): Option<string>
  {
    if e < |lines| then CaptionOf(lines[e]) else None
  }

  /** The table built from run `r` as the `n`-th table. */
  function TableOfRun(lines: seq<string>, r: (nat, nat), n: nat): Table
    requires r.0 + 3 <= r.1 <= |lines|
  {
    var run := lines[r.0..r.1];
    Table(FormatId("table_", n), Join(run, "\n"), CaptionAfter(lines, r.1), None,
          Some(|run| - 2), Some(CountChar(run[0], '|') - 1))
  }

  lemma {:induction false} TableOfRunIs(lines: seq<string>, s: nat, e: nat, n: nat)
    requires s + 3 <= e <= |lines|
    ensures TableOfRun(lines, (s, e), n) == Table(FormatId("table_", n), Join(lines[s..e], "\n"), CaptionAfter(lines, e), None,
                                                  Some(e - s - 2), Some(CountChar(lines[s], '|') - 1))
  {
    assert lines[s..e][0] == lines[s];
  }

  lemma {:induction false} TableOfRunFields(lines: seq<string>, s: nat, e: nat, n: nat, t: Table)
    requires s + 3 <= e <= |lines| && t == TableOfRun(lines, (s, e), n)
    ensures t.id == FormatId("table_", n) && t.content == Join(lines[s..e], "\n")
    ensures t.rows == Some(e - s - 2) && t.cols == Some(CountChar(lines[s], '|') - 1)
    ensures t.caption == CaptionAfter(lines, e)
  {
    assert lines[s..e][0] == lines[s];
  }

  /** `tables` holds, one for one, the tables of `runs`, numbered from one. */
  predicate TablesFor(lines: seq<string>, tables: seq<Table>, runs: seq<(nat, nat)>) {
    |tables| == |runs|
    && forall k :: 0 <= k < |runs| ==>
      runs[k].0 + 3 <= runs[k].1 <= |lines| && tables[k] == TableOfRun(lines, runs[k], k + 1)
  }

  lemma {:induction false} TablesForSnoc(lines: seq<string>, tables: seq<Table>, runs: seq<(nat, nat)>,
                                         r: (nat, nat), n: nat, t: Table, next: seq<(nat, nat)>)
    requires TablesFor(lines, tables, runs) && r.0 + 3 <= r.1 <= |lines|
    requires n == |runs| + 1 && t == TableOfRun(lines, r, n) && next == runs + [r]
    ensures TablesFor(lines, tables + [t], next)
  {
    forall k | 0 <= k < |next|
      ensures next[k].0 + 3 <= next[k].1 <= |lines| && (tables + [t])[k] == TableOfRun(lines, next[k], k + 1)
    {
      if k < |runs| {
        assert next[k] == runs[k] && (tables + [t])[k] == tables[k];
      }
    }
  }

  // ---------------------------------------------------------------- the scan

  /** The scan past a run of table lines that starts at `s` and ends at `e`. */
  lemma {:induction false} RunsAfterRun(lines: seq<string>, flags: seq<bool>, done: seq<(nat, nat)>, s: nat, e: nat)
    requires |flags| == |lines| && s < e <= |lines| && flags[s] && e == RunEnd(flags, s)
    requires Runs(lines, flags, 0) == done + Runs(lines, flags, s)
    ensures Runs(lines, flags, 0) == (done + if Qualifies(lines, s, e) then [(s, e)] else []) + Runs(lines, flags, e)
  {
  }

  /** The scan past a line that is not a table line. */
  lemma {:induction false} RunsAfterSkip(lines: seq<string>, flags: seq<bool>, done: seq<(nat, nat)>, i: nat)
    requires |flags| == |lines| && i < |lines| && !flags[i]
    requires Runs(lines, flags, 0) == done + Runs(lines, flags, i)
    ensures Runs(lines, flags, 0) == done + Runs(lines, flags, i + 1)
  {
  }

  /** The inner loop of the scan: collects the table lines from `s` up to
      the first line that is not one. */
  method CollectRun(lines: seq<string>, ghost flags: seq<bool>, s: nat) returns (tableLines: seq<string>, e: nat)
    requires flags == TableFlags(lines) && s <= |lines|
    ensures e == RunEnd(flags, s) && tableLines == lines[s..e]
  {
    tableLines := [];
    e := s;
    while e < |lines| && IsTableLine(lines[e])
      invariant s <= e <= |lines|
      invariant tableLines == lines[s..e]
      invariant RunEnd(flags, e) == RunEnd(flags, s)
      decreases |lines| - e
    {
      assert flags[e];
      SliceSnoc(lines, s, e);
      tableLines := tableLines + [lines[e]];
      e := e + 1;
    }
    assert e < |lines| ==> !flags[e];
  }

  /** The table built from the collected lines of run `[s, e)`: `cols` from
      the header's pipes, `rows` the line count less header and separator,
      and the caption sniffed from the line after the run, if any. */
  method AssembleTable(lines: seq<string>, s: nat, e: nat, tableLines: seq<string>, counter: nat) returns (t: Table)
    requires s + 3 <= e <= |lines| && tableLines == lines[s..e]
    ensures t == TableOfRun(lines, (s, e), counter)
  {
    var colCount: int := CountChar(tableLines[0], '|') - 1;
    var rowCount: nat := |tableLines| - 2;
    var caption := None;
    if e < |lines| {
      caption := CaptionOf(lines[e]);
    }
    TableOfRunIs(lines, s, e, counter);
    assert tableLines[0] == lines[s] && |tableLines| == e - s;
    t := Table(FormatId("table_", counter), Join(tableLines, "\n"), caption, None, Some(rowCount), Some(colCount));
  }

  /** `_extract_tables_from_markdown`: walks the lines with index `i`; a
      table line starts a run that is collected to its end, and the run
      becomes a table when it has at least three lines and a separator as
      its second line. `i` grows on every iteration. */
  method ExtractPipeTables(text: string) returns (tables: seq<Table>)
    ensures TablesFor(Lines(text), tables, Runs(Lines(text), TableFlags(Lines(text)), 0))
  {
    var lines := Split(text, '\n');
    ghost var flags := TableFlags(lines);
    tables := [];
    var counter := 0;
    var i := 0;
    ghost var done: seq<(nat, nat)> := [];
    while i < |lines|
      invariant i <= |lines|
      invariant counter == |tables| == |done|
      invariant Runs(lines, flags, 0) == done + Runs(lines, flags, i)
      invariant TablesFor(lines, tables, done)
      decreases |lines| - i
    {
      var line := lines[i];
      assert flags[i] == IsTableLine(line);
      if IsTableLine(line) {
        var s := i;
        var tableLines;
        tableLines, i := CollectRun(lines, flags, s);
        RunsAfterRun(lines, flags, done, s, i);
        if |tableLines| >= 3 && IsSeparatorRow(tableLines[1]) {
          counter := counter + 1;
          var t := AssembleTable(lines, s, i, tableLines, counter);
          TablesForSnoc(lines, tables, done, (s, i), counter, t, done + [(s, i)]);
          tables := tables + [t];
          done := done + [(s, i)];
        } else {
          assert done + [] == done;
        }
      } else {
        RunsAfterSkip(lines, flags, done, i);
        i := i + 1;
      }
    }
  }

  /** Every run the scan keeps is at least three lines long and lies in
      the text. */
  lemma {:induction false} RunsBounded(lines: seq<string>, runs: seq<(nat, nat)>)
    requires runs == Runs(lines, TableFlags(lines), 0)
    ensures forall k :: 0 <= k < |runs| ==> runs[k].0 + 3 <= runs[k].1 <= |lines|
  {
    RunsSound(lines, TableFlags(lines), 0);
    forall k | 0 <= k < |runs| ensures runs[k].0 + 3 <= runs[k].1 <= |lines| {
      assert runs[k] in runs;
    }
  }

  /** One table per run, numbered from one. */
  function RunTables(lines: seq<string>, runs: seq<(nat, nat)>): (r: seq<Table>)
    requires forall k :: 0 <= k < |runs| ==> runs[k].0 + 3 <= runs[k].1 <= |lines|
    ensures TablesFor(lines, r, runs)
  {
    seq(|runs|, k requires 0 <= k < |runs| => TableOfRun(lines, runs[k], k + 1))
  }

  /** The tables of the fallback as a value: one per run the scan keeps,
      numbered from one. */
  function PipeTables(text: string): (r: seq<Table>)
    ensures TablesFor(Lines(text), r, Runs(Lines(text), TableFlags(Lines(text)), 0))
  {
    var lines := Lines(text);
    var runs := Runs(lines, TableFlags(lines), 0);
    RunsBounded(lines, runs);
    RunTables(lines, runs)
  }

  /** The runs the scan keeps determine the tables. */
  lemma {:induction false} PipeTablesUnique(text: string, tables: seq<Table>)
    requires TablesFor(Lines(text), tables, Runs(Lines(text), TableFlags(Lines(text)), 0))
    ensures tables == PipeTables(text)
  {
    var r := PipeTables(text);
    assert forall k :: 0 <= k < |tables| ==> tables[k] == r[k];
  }

  /** What a table of the fallback states about its lines: when the `k`-th
      run the scan keeps is `[s, e)`, that run is a maximal run of table
      lines that qualifies, and the `k`-th table has the `k + 1`-th id, the
      run joined by newlines as content, the run length less two as `rows`,
      the header's pipe count less one as `cols`, and the caption of the line
      after the run. */
  lemma {:induction false} PipeTableShape(lines: seq<string>, tables: seq<Table>, k: nat, s: nat, e: nat)
    requires TablesFor(lines, tables, Runs(lines, TableFlags(lines), 0)) && k < |tables|
    requires Runs(lines, TableFlags(lines), 0)[k] == (s, e)
    ensures MaximalRun(TableFlags(lines), s, e) && Qualifies(lines, s, e)
    ensures tables[k].id == FormatId("table_", k + 1)
    ensures tables[k].content == Join(lines[s..e], "\n")
    ensures tables[k].rows == Some(e - s - 2) && e - s - 2 >= 1
    ensures tables[k].cols == Some(CountChar(lines[s], '|') - 1)
    ensures tables[k].caption == (if e < |lines| then CaptionOf(lines[e]) else None)
  {
    var runs := Runs(lines, TableFlags(lines), 0);
    RunsSound(lines, TableFlags(lines), 0);
    assert runs[k] in runs;
    TableOfRunFields(lines, s, e, k + 1, tables[k]);
  }

  /** A fallback result holds a table for every maximal qualifying run of
      table lines. */
  lemma {:induction false} PipeTablesComplete(lines: seq<string>, tables: seq<Table>, s: nat, e: nat)
    requires TablesFor(lines, tables, Runs(lines, TableFlags(lines), 0))
    requires MaximalRun(TableFlags(lines), s, e) && Qualifies(lines, s, e)
    ensures exists k :: 0 <= k < |tables| && Runs(lines, TableFlags(lines), 0)[k] == (s, e)
  {
    RunsComplete(lines, TableFlags(lines), 0, s, e);
  }
}
