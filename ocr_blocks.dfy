/** Tables and figures from the OCR layout blocks (`extract_tables`,
    `extract_figures`): the blocks of the right kinds, in order, numbered from
    one; the markdown fallback runs only when no block is of those kinds. */
module OcrBlocks {
  import opened Text
  import opened Models
  import opened OcrTables
  import opened OcrFigures

  /** One layout block of the OCR output, a JSON object. Each field is the
      value under its key, `None` when the key is absent. */
  datatype Block = Block(
    kind: Option<string>,
    content: Option<string>,
    caption: Option<string>,
    section: Option<string>,
    imagePath: Option<string>,
    page: Option<int>)

  /** `dict.get(key, default)`. */
  function GetOr<T>(o: Option<T>, default: T): (r: T)
    ensures o.Some? ==> r == o.value
    ensures o.None? ==> r == default
  {
    if o.Some? then o.value else default
  }

  const TableKinds: seq<string> := ["table", "table_body", "table_caption"]
  const FigureKinds: seq<string> := ["figure", "figure_caption", "image"]

  /** `block.get("type") in kinds`: a block without a type is of no kind. */
  predicate OfKind(b: Block, kinds: seq<string>) {
    b.kind.Some? && b.kind.value in kinds
  }

  /** The blocks of the given kinds, in order. */
  function Kept(bs: seq<Block>, kinds: seq<string>): (r: seq<Block>)
    ensures |r| <= |bs|
  {
    if bs == [] then []
    else Kept(bs[..|bs| - 1], kinds) + (if OfKind(bs[|bs| - 1], kinds) then [bs[|bs| - 1]] else [])
  }

  /** Keeping one more block of the list. */
  lemma {:induction false} KeptSnoc(bs: seq<Block>, kinds: seq<string>, i: nat)
    requires i < |bs|
    ensures Kept(bs[..i + 1], kinds) == Kept(bs[..i], kinds) + (if OfKind(bs[i], kinds) then [bs[i]] else [])
  {
    assert bs[..i + 1][..i] == bs[..i];
  }

  /** The kept blocks are exactly the blocks of those kinds. */
  lemma {:induction false} KeptMembers(bs: seq<Block>, kinds: seq<string>)
    ensures forall b :: b in Kept(bs, kinds) <==> b in bs && OfKind(b, kinds)
  {
    if bs != [] {
      var init, last := bs[..|bs| - 1], bs[|bs| - 1];
      KeptMembers(init, kinds);
      assert bs == init + [last];
      forall b ensures b in Kept(bs, kinds) <==> b in bs && OfKind(b, kinds) {
        assert b in bs <==> b in init || b == last;
      }
    }
  }

  /** No block is kept exactly when no block is of those kinds. */
  lemma {:induction false} KeptEmpty(bs: seq<Block>, kinds: seq<string>)
    ensures Kept(bs, kinds) == [] <==> forall k :: 0 <= k < |bs| ==> !OfKind(bs[k], kinds)
  {
    KeptMembers(bs, kinds);
    if Kept(bs, kinds) != [] {
      assert Kept(bs, kinds)[0] in Kept(bs, kinds);
    }
    if exists k :: 0 <= k < |bs| && OfKind(bs[k], kinds) {
      var k :| 0 <= k < |bs| && OfKind(bs[k], kinds);
      assert bs[k] in bs;
    }
  }

  // ---------------------------------------------------------------- tables

  /** The table made from a table block as the `n`-th table: the content
      defaults to the empty string and the section to the empty string. */
  function TableOfBlock(b: Block, n: nat): Table {
    Table(FormatId("table_", n), GetOr(b.content, ""), b.caption, Some(GetOr(b.section, "")), None, None)
  }

  /** The tables of the block path: one per table block, numbered from one. */
  function BlockTables(bs: seq<Block>): (r: seq<Table>)
    ensures |r| == |Kept(bs, TableKinds)|
    ensures forall k :: 0 <= k < |r| ==> r[k] == TableOfBlock(Kept(bs, TableKinds)[k], k + 1)
  {
    var kept := Kept(bs, TableKinds);
    seq(|kept|, k requires 0 <= k < |kept| => TableOfBlock(kept[k], k + 1))
  }

  /** The block loop of `extract_tables`. */
  method TablesFromBlocks(blocks: seq<Block>) returns (tables: seq<Table>)
    ensures tables == BlockTables(blocks)
  {
    tables := [];
    var counter := 0;
    for i := 0 to |blocks|
      invariant counter == |tables| && tables == BlockTables(blocks[..i])
    {
      var block := blocks[i];
      BlockTablesSnoc(blocks, i);
      if block.kind.Some? && block.kind.value in TableKinds {
        counter := counter + 1;
        var table := Table(FormatId("table_", counter), GetOr(block.content, ""), block.caption,
                           Some(GetOr(block.section, "")), None, None);
        assert table == TableOfBlock(block, counter);
        tables := tables + [table];
      }
    }
    assert blocks[..|blocks|] == blocks;
  }

  /** One more block of the list: one more table when it is of the kind,
      numbered after the earlier ones. */
  lemma {:induction false} BlockTablesSnoc(bs: seq<Block>, i: nat)
    requires i < |bs|
    ensures BlockTables(bs[..i + 1]) == BlockTables(bs[..i])
      + (if OfKind(bs[i], TableKinds) then [TableOfBlock(bs[i], |BlockTables(bs[..i])| + 1)] else [])
  {
    KeptSnoc(bs, TableKinds, i);
    var before := BlockTables(bs[..i]);
    var after := before + (if OfKind(bs[i], TableKinds) then [TableOfBlock(bs[i], |before| + 1)] else []);
    var kept := Kept(bs[..i + 1], TableKinds);
    assert |BlockTables(bs[..i + 1])| == |after|;
    forall k | 0 <= k < |after| ensures BlockTables(bs[..i + 1])[k] == after[k] {
      assert BlockTables(bs[..i + 1])[k] == TableOfBlock(kept[k], k + 1);
      if k < |before| {
        assert kept[k] == Kept(bs[..i], TableKinds)[k];
        assert after[k] == before[k] == TableOfBlock(kept[k], k + 1);
      } else {
        assert kept[k] == bs[i] && after[k] == TableOfBlock(bs[i], k + 1);
      }
    }
  }

  /** The tables of a document: the block tables when there are any;
      otherwise, for a non-empty markdown text, the pipe tables found in it,
      and no table at all for an empty one. The two paths are never merged. */
  predicate TablesOf(blocks: seq<Block>, markdown: string, tables: seq<Table>) {
    if BlockTables(blocks) != [] then tables == BlockTables(blocks)
    else if markdown != [] then TablesFor(Lines(markdown), tables, Runs(Lines(markdown), TableFlags(Lines(markdown)), 0))
    else tables == []
  }

  /** `extract_tables`. */
  method ExtractTables(blocks: seq<Block>, markdown: string) returns (tables: seq<Table>)
    ensures TablesOf(blocks, markdown, tables)
  {
    tables := TablesFromBlocks(blocks);
    if tables == [] && markdown != [] {
      tables := ExtractPipeTables(markdown);
    }
  }

  /** The tables of a document as a value. */
  function DocumentTables(blocks: seq<Block>, markdown: string): (r: seq<Table>)
    ensures TablesOf(blocks, markdown, r)
  {
    if BlockTables(blocks) != [] then BlockTables(blocks)
    else if markdown != [] then PipeTables(markdown)
    else []
  }

  /** The blocks and the markdown determine the tables. */
  lemma {:induction false} TablesOfUnique(blocks: seq<Block>, markdown: string, tables: seq<Table>)
    requires TablesOf(blocks, markdown, tables)
    ensures tables == DocumentTables(blocks, markdown)
  {
    if BlockTables(blocks) == [] && markdown != [] {
      PipeTablesUnique(markdown, tables);
    }
  }

  /** The block path yields a table exactly when some block is a table
      block; its tables carry the ids `table_001`, `table_002`, … in block
      order, and every one of them comes from a table block of the list. */
  lemma {:induction false} BlockTablesShape(bs: seq<Block>)
    ensures BlockTables(bs) == [] <==> forall k :: 0 <= k < |bs| ==> !OfKind(bs[k], TableKinds)
    ensures forall k :: 0 <= k < |BlockTables(bs)| ==>
      BlockTables(bs)[k].id == FormatId("table_", k + 1)
      && exists b :: b in bs && OfKind(b, TableKinds) && BlockTables(bs)[k] == TableOfBlock(b, k + 1)
  {
    KeptEmpty(bs, TableKinds);
    KeptMembers(bs, TableKinds);
    var kept := Kept(bs, TableKinds);
    forall k | 0 <= k < |BlockTables(bs)|
      ensures BlockTables(bs)[k].id == FormatId("table_", k + 1)
      && exists b :: b in bs && OfKind(b, TableKinds) && BlockTables(bs)[k] == TableOfBlock(b, k + 1)
    {
      assert kept[k] in kept;
    }
  }

  // ---------------------------------------------------------------- figures

  /** The figure made from a figure block as the `n`-th figure: the section
      defaults to the empty string and the page to zero. */
  function FigureOfBlock(b: Block, n: nat): Figure {
    Figure(FormatId("fig_", n), b.imagePath, b.caption, Some(GetOr(b.section, "")), Some(GetOr(b.page, 0)))
  }

  /** The figures of the block path: one per figure block, numbered from one. */
  function BlockFigures(bs: seq<Block>): (r: seq<Figure>)
    ensures |r| == |Kept(bs, FigureKinds)|
    ensures forall k :: 0 <= k < |r| ==> r[k] == FigureOfBlock(Kept(bs, FigureKinds)[k], k + 1)
  {
    var kept := Kept(bs, FigureKinds);
    seq(|kept|, k requires 0 <= k < |kept| => FigureOfBlock(kept[k], k + 1))
  }

  /** The block loop of `extract_figures`. */
  method FiguresFromBlocks(blocks: seq<Block>) returns (figures: seq<Figure>)
    ensures figures == BlockFigures(blocks)
  {
    figures := [];
    var counter := 0;
    for i := 0 to |blocks|
      invariant counter == |figures| && figures == BlockFigures(blocks[..i])
    {
      var block := blocks[i];
      BlockFiguresSnoc(blocks, i);
      if block.kind.Some? && block.kind.value in FigureKinds {
        counter := counter + 1;
        var figure := Figure(FormatId("fig_", counter), block.imagePath, block.caption,
                             Some(GetOr(block.section, "")), Some(GetOr(block.page, 0)));
        assert figure == FigureOfBlock(block, counter);
        figures := figures + [figure];
      }
    }
    assert blocks[..|blocks|] == blocks;
  }

  /** One more block of the list: one more figure when it is of the kind,
      numbered after the earlier ones. */
  lemma {:induction false} BlockFiguresSnoc(bs: seq<Block>, i: nat)
    requires i < |bs|
    ensures BlockFigures(bs[..i + 1]) == BlockFigures(bs[..i])
      + (if OfKind(bs[i], FigureKinds) then [FigureOfBlock(bs[i], |BlockFigures(bs[..i])| + 1)] else [])
  {
    KeptSnoc(bs, FigureKinds, i);
    var before := BlockFigures(bs[..i]);
    var after := before + (if OfKind(bs[i], FigureKinds) then [FigureOfBlock(bs[i], |before| + 1)] else []);
    var kept := Kept(bs[..i + 1], FigureKinds);
    assert |BlockFigures(bs[..i + 1])| == |after|;
    forall k | 0 <= k < |after| ensures BlockFigures(bs[..i + 1])[k] == after[k] {
      assert BlockFigures(bs[..i + 1])[k] == FigureOfBlock(kept[k], k + 1);
      if k < |before| {
        assert kept[k] == Kept(bs[..i], FigureKinds)[k];
        assert after[k] == before[k] == FigureOfBlock(kept[k], k + 1);
      } else {
        assert kept[k] == bs[i] && after[k] == FigureOfBlock(bs[i], k + 1);
      }
    }
  }

  /** The figures of a document: the block figures when there are any;
      otherwise, for a non-empty markdown text, one figure per caption match
      in it, and no figure at all for an empty one. The two paths are never
      merged. */
  predicate FiguresOf(blocks: seq<Block>, markdown: string, figures: seq<Figure>) {
    if BlockFigures(blocks) != [] then figures == BlockFigures(blocks)
    else if markdown != [] then
      |figures| == |FigureMatches(markdown, 0)|
      && forall k :: 0 <= k < |figures| ==> figures[k] == FigureOfMatch(FigureMatches(markdown, 0)[k], k + 1)
    else figures == []
  }

  /** `extract_figures`. */
  method ExtractFigures(blocks: seq<Block>, markdown: string) returns (figures: seq<Figure>)
    ensures FiguresOf(blocks, markdown, figures)
  {
    figures := FiguresFromBlocks(blocks);
    if figures == [] && markdown != [] {
      figures := ExtractFiguresFromMarkdown(markdown);
    }
  }

  /** The figures of a document as a value. */
  function DocumentFigures(blocks: seq<Block>, markdown: string): (r: seq<Figure>)
    ensures FiguresOf(blocks, markdown, r)
  {
    if BlockFigures(blocks) != [] then BlockFigures(blocks)
    else if markdown != [] then MatchFigures(FigureMatches(markdown, 0))
    else []
  }

  /** The blocks and the markdown determine the figures. */
  lemma {:induction false} FiguresOfUnique(blocks: seq<Block>, markdown: string, figures: seq<Figure>)
    requires FiguresOf(blocks, markdown, figures)
    ensures figures == DocumentFigures(blocks, markdown)
  {
    if BlockFigures(blocks) == [] && markdown != [] {
      var r := MatchFigures(FigureMatches(markdown, 0));
      assert forall k :: 0 <= k < |figures| ==> figures[k] == r[k];
    }
  }

  /** The block path yields a figure exactly when some block is a figure
      block; its figures carry the ids `fig_001`, `fig_002`, … in block
      order, and every one of them comes from a figure block of the list. */
  lemma {:induction false} BlockFiguresShape(bs: seq<Block>)
    ensures BlockFigures(bs) == [] <==> forall k :: 0 <= k < |bs| ==> !OfKind(bs[k], FigureKinds)
    ensures forall k :: 0 <= k < |BlockFigures(bs)| ==>
      BlockFigures(bs)[k].id == FormatId("fig_", k + 1)
      && exists b :: b in bs && OfKind(b, FigureKinds) && BlockFigures(bs)[k] == FigureOfBlock(b, k + 1)
  {
    KeptEmpty(bs, FigureKinds);
    KeptMembers(bs, FigureKinds);
    var kept := Kept(bs, FigureKinds);
    forall k | 0 <= k < |BlockFigures(bs)|
      ensures BlockFigures(bs)[k].id == FormatId("fig_", k + 1)
      && exists b :: b in bs && OfKind(b, FigureKinds) && BlockFigures(bs)[k] == FigureOfBlock(b, k + 1)
    {
      assert kept[k] in kept;
    }
  }
}
