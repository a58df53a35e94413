/** The renderer on every validated document. */
module RenderTheorems {
  import opened Options
  import opened ResumeDocument
  import opened Paginator
  import opened PaginatorTheorems
  import opened PageStream

  // ---- the block lookup is total ----------------------------------------------------------

  lemma {:induction false} BlockMapIds(blocks: seq<Block>)
    ensures forall id :: id in BlockMap(blocks) <==> id in BlockIds(blocks)
    ensures forall id <- BlockMap(blocks) :: BlockMap(blocks)[id].id == id && BlockMap(blocks)[id] in blocks
  {
    if blocks != [] {
      var before := blocks[..|blocks| - 1];
      BlockMapIds(before);
      assert BlockIds(blocks) == BlockIds(before) + [blocks[|blocks| - 1].id];
    }
  }

  lemma {:induction false} ColumnsIn(columns: seq<Column>, column: Column, id: string)
    requires column in columns && id in column.sectionIds
    ensures id in ColumnReferences(columns)
  {
    if column != columns[0] {
      ColumnsIn(columns[1..], column, id);
    }
  }

  lemma {:induction false} RowsIn(rows: seq<Row>, row: Row, id: string)
    requires row in rows && id in ColumnReferences(row.columns)
    ensures id in RowReferences(rows)
  {
    if row != rows[0] {
      RowsIn(rows[1..], row, id);
    }
  }

  lemma {:induction false} PagesIn(pages: seq<Page>, page: Page, id: string)
    requires page in pages && id in RowReferences(page.rows)
    ensures id in References(pages)
  {
    if page != pages[0] {
      PagesIn(pages[1..], page, id);
    }
  }

  /** A document that passes the layout checks never asks for a block it does not have. */
  lemma ValidDocumentResolves(doc: Document)
    requires FirstLayoutError(doc) == None
    ensures AllResolve(doc)
  {
    BlockMapIds(doc.blocks);
    forall page <- doc.pages, row <- page.rows, column <- row.columns, id <- column.sectionIds
      ensures id in BlockMap(doc.blocks)
    {
      ColumnsIn(row.columns, column, id);
      RowsIn(page.rows, row, id);
      PagesIn(doc.pages, page, id);
      assert id in Elements(References(doc.pages));
      assert id in Elements(BlockIds(doc.blocks));
    }
    forall page <- doc.pages, row <- page.rows
      ensures Resolves(row, BlockMap(doc.blocks))
    {
      forall column <- row.columns, id <- column.sectionIds
        ensures id in BlockMap(doc.blocks)
      {
      }
    }
  }

  // ---- every visible block is laid out exactly once ---------------------------------------

  lemma {:induction false} SectionLinesConcat(a: seq<string>, b: seq<string>, blocks: Blocks, maxChars: nat, wrap: Wrap)
    requires (forall id <- a :: id in blocks) && (forall id <- b :: id in blocks)
    ensures SectionLines(a + b, blocks, maxChars, wrap)
         == SectionLines(a, blocks, maxChars, wrap) + SectionLines(b, blocks, maxChars, wrap)
  {
    if a == [] {
      assert a + b == b;
    } else {
      var tail := a[1..];
      assert (a + b)[1..] == tail + b && (a + b)[0] == a[0];
      SectionLinesConcat(tail, b, blocks, maxChars, wrap);
      var head := if blocks[a[0]].visible then BlockLines(blocks[a[0]], maxChars, wrap) else [];
      Associative(head, SectionLines(tail, blocks, maxChars, wrap), SectionLines(b, blocks, maxChars, wrap));
    }
  }

  /** All lines of a laid-out row, column after column. */
  function CellLines(row: LaidRow): seq<Line> {
    if row == [] then [] else row[0].lines + CellLines(row[1..])
  }

  lemma {:induction false} RowLinesFollowReferences(columns: seq<Column>, blocks: Blocks, maxChars: nat, wrap: Wrap)
    requires Resolves(Row(columns), blocks)
    ensures forall id <- ColumnReferences(columns) :: id in blocks
    ensures CellLines(RowLines(Row(columns), blocks, maxChars, wrap))
         == SectionLines(ColumnReferences(columns), blocks, maxChars, wrap)
  {
    if columns != [] {
      assert Resolves(Row(columns[1..]), blocks) by {
        assert forall column <- columns[1..] :: column in columns;
      }
      RowLinesFollowReferences(columns[1..], blocks, maxChars, wrap);
      assert columns[0] in columns;
      SectionLinesConcat(columns[0].sectionIds, ColumnReferences(columns[1..]), blocks, maxChars, wrap);
      assert RowLines(Row(columns), blocks, maxChars, wrap)[1..] == RowLines(Row(columns[1..]), blocks, maxChars, wrap);
    }
  }

  /** All lines of laid-out rows, row after row. */
  function RowsLines(rows: seq<LaidRow>): seq<Line> {
    if rows == [] then [] else CellLines(rows[0]) + RowsLines(rows[1..])
  }

  lemma {:induction false} RowsLinesFollowReferences(rows: seq<Row>, blocks: Blocks, maxChars: nat, wrap: Wrap)
    requires forall row <- rows :: Resolves(row, blocks)
    ensures forall id <- RowReferences(rows) :: id in blocks
    ensures RowsLines(LaidRows(rows, blocks, maxChars, wrap)) ==
            SectionLines(RowReferences(rows), blocks, maxChars, wrap)
  {
    if rows != [] {
      var head, tail := ColumnReferences(rows[0].columns), RowReferences(rows[1..]);
      var laid := LaidRows(rows, blocks, maxChars, wrap);
      RowsLinesFollowReferences(rows[1..], blocks, maxChars, wrap);
      assert rows[0] == Row(rows[0].columns);
      RowLinesFollowReferences(rows[0].columns, blocks, maxChars, wrap);
      assert CellLines(laid[0]) == SectionLines(head, blocks, maxChars, wrap);
      assert laid[1..] == LaidRows(rows[1..], blocks, maxChars, wrap);
      SectionLinesConcat(head, tail, blocks, maxChars, wrap);
    }
  }

  /** All lines of the source pages, page after page. */
  function PagesLines(pages: seq<Page>, blocks: Blocks, maxChars: nat, wrap: Wrap): seq<Line>
    requires forall page <- pages :: forall row <- page.rows :: Resolves(row, blocks)
  {
    if pages == [] then []
    else RowsLines(LaidRows(pages[0].rows, blocks, maxChars, wrap)) + PagesLines(pages[1..], blocks, maxChars, wrap)
  }

  /** What is laid out is what is referenced: visible blocks, in layout order. */
  lemma {:induction false} PagesLinesFollowReferences(pages: seq<Page>, blocks: Blocks, maxChars: nat, wrap: Wrap)
    requires forall page <- pages :: forall row <- page.rows :: Resolves(row, blocks)
    ensures forall id <- References(pages) :: id in blocks
    ensures PagesLines(pages, blocks, maxChars, wrap) == SectionLines(References(pages), blocks, maxChars, wrap)
  {
    if pages != [] {
      assert forall page <- pages[1..] :: page in pages;
      PagesLinesFollowReferences(pages[1..], blocks, maxChars, wrap);
      assert pages[0] in pages;
      RowsLinesFollowReferences(pages[0].rows, blocks, maxChars, wrap);
      SectionLinesConcat(RowReferences(pages[0].rows), References(pages[1..]), blocks, maxChars, wrap);
    }
  }

  lemma SplitAt(refs: seq<string>, k: nat, blocks: Blocks, maxChars: nat, wrap: Wrap)
    requires (forall id <- refs :: id in blocks) && k < |refs| && blocks[refs[k]].visible
    ensures SectionLines(refs, blocks, maxChars, wrap)
         == SectionLines(refs[..k], blocks, maxChars, wrap) + BlockLines(blocks[refs[k]], maxChars, wrap)
            + SectionLines(refs[k + 1..], blocks, maxChars, wrap)
  {
    var tail := refs[k..];
    assert refs == refs[..k] + tail;
    assert tail[1..] == refs[k + 1..];
    SectionLinesConcat(refs[..k], tail, blocks, maxChars, wrap);
  }

  lemma PlaceOf(doc: Document, b: Block) returns (k: nat)
    requires FirstLayoutError(doc) == None && b in doc.blocks
    ensures var refs := References(doc.pages);
      k < |refs| && refs[k] == b.id && b.id !in refs[..k] && b.id !in refs[k + 1..]
  {
    EachBlockReferencedOnce(doc, b);
    var refs := References(doc.pages);
    k :| 0 <= k < |refs| && refs[k] == b.id;
    var tail := refs[k + 1..];
    forall i | 0 <= i < |tail| ensures tail[i] != b.id {
      assert tail[i] == refs[i + k + 1];
    }
  }

  lemma DistinctIds(doc: Document, a: Block, b: Block)
    requires FirstLayoutError(doc) == None && a in doc.blocks && b in doc.blocks && a.id == b.id
    ensures a == b
  {
    LayoutIsPermutation(doc);
    var ids := BlockIds(doc.blocks);
    var i, j :| 0 <= i < |doc.blocks| && 0 <= j < |doc.blocks| && doc.blocks[i] == a && doc.blocks[j] == b;
    assert ids[i] == ids[j];
  }

  // ---- what pagination keeps of every line ------------------------------------------------

  predicate NarrowRow(row: LaidRow, width: nat) {
    forall cell <- row :: forall line <- cell.lines :: |line.text| <= width
  }

  lemma CutsStayNarrow(row: LaidRow, n: nat, width: nat)
    requires NarrowRow(row, width)
    ensures NarrowRow(TakeLines(row, n), width) && NarrowRow(DropLines(row, n), width)
  {
    forall i | 0 <= i < |row|
      ensures forall line <- Prefix(row[i].lines, n) :: |line.text| <= width
      ensures forall line <- Suffix(row[i].lines, n) :: |line.text| <= width
    {
      assert row[i] in row;
    }
  }

  lemma {:induction false} PagesStayNarrow(pending: seq<LaidRow>, current: PageRows, remaining: int, available: int,
      width: nat)
    requires (forall row <- pending :: NarrowRow(row, width)) && (forall row <- current :: NarrowRow(row, width))
    ensures forall page <- Paginate(pending, current, remaining, available) ::
              forall row <- page :: NarrowRow(row, width)
    decreases Cost(pending)
  {
    if pending != [] {
      var take := Taken(pending[0], current, remaining);
      var after, page := After(pending, take), current + [TakeLines(pending[0], take)];
      LoopProgress(pending, current, remaining);
      assert pending[0] in pending;
      CutsStayNarrow(pending[0], take, width);
      forall row <- after ensures NarrowRow(row, width) {
        assert row in pending[1..] ==> row in pending;
      }
      if ClosesPage(pending, current, remaining) {
        PagesStayNarrow(after, [], available, available, width);
      } else {
        PagesStayNarrow(after, page, remaining - (take + 1), available, width);
      }
    }
  }

  lemma {:induction false} SectionLinesNarrow(ids: seq<string>, blocks: Blocks, maxChars: nat, wrap: Wrap)
    requires (forall id <- ids :: id in blocks) && WrapContract(wrap) && maxChars > 0
    ensures forall line <- SectionLines(ids, blocks, maxChars, wrap) :: |line.text| <= maxChars
  {
    if ids != [] {
      SectionLinesNarrow(ids[1..], blocks, maxChars, wrap);
      var block := blocks[ids[0]];
      WrappedLinesFit([Line(block.title, true)] + ContentLines(block.content), maxChars, wrap);
    }
  }

  lemma LaidRowsNarrow(rows: seq<Row>, blocks: Blocks, maxChars: nat, wrap: Wrap)
    requires (forall row <- rows :: Resolves(row, blocks)) && WrapContract(wrap) && maxChars > 0
    ensures forall row <- LaidRows(rows, blocks, maxChars, wrap) :: NarrowRow(row, maxChars)
  {
    forall i | 0 <= i < |rows|
      ensures NarrowRow(LaidRows(rows, blocks, maxChars, wrap)[i], maxChars)
    {
      assert rows[i] in rows;
      forall k | 0 <= k < |rows[i].columns|
        ensures forall line <- RowLines(rows[i], blocks, maxChars, wrap)[k].lines :: |line.text| <= maxChars
      {
        assert rows[i].columns[k] in rows[i].columns;
        SectionLinesNarrow(rows[i].columns[k].sectionIds, blocks, maxChars, wrap);
      }
    }
  }

  // ---- the document -----------------------------------------------------------------------

  predicate GoodPage(rows: PageRows, available: int, width: nat) {
    Fits(rows, available) && forall row <- rows :: NarrowRow(row, width)
  }

  lemma {:induction false} PagesAreGood(pages: seq<Page>, blocks: Blocks, maxChars: nat, wrap: Wrap, available: int)
    requires forall page <- pages :: forall row <- page.rows :: Resolves(row, blocks) && row.columns != []
    requires WrapContract(wrap) && maxChars > 0 && available >= 1
    ensures forall page <- PaginatePages(pages, blocks, maxChars, wrap, available) ::
              GoodPage(page, available, maxChars)
  {
    if pages != [] {
      var last := pages[|pages| - 1];
      assert last in pages && forall page <- pages[..|pages| - 1] :: page in pages;
      PagesAreGood(pages[..|pages| - 1], blocks, maxChars, wrap, available);
      var rows := LaidRows(last.rows, blocks, maxChars, wrap);
      LaidRowsNarrow(last.rows, blocks, maxChars, wrap);
      assert RealRows(rows) by {
        forall i | 0 <= i < |rows| ensures rows[i] != [] {
          assert last.rows[i] in last.rows;
        }
      }
      PagesFit(rows, [], available, available);
      PagesStayNarrow(rows, [], available, available, maxChars);
    }
  }

  lemma {:induction false} SomethingIsDrawn(pending: seq<LaidRow>, current: PageRows, remaining: int, available: int)
    requires pending != [] || current != []
    ensures Paginate(pending, current, remaining, available) != []
    decreases Cost(pending)
  {
    if pending != [] && !ClosesPage(pending, current, remaining) {
      var take := Taken(pending[0], current, remaining);
      LoopProgress(pending, current, remaining);
      var page := current + [TakeLines(pending[0], take)];
      SomethingIsDrawn(After(pending, take), page, remaining - (take + 1), available);
    }
  }

  /** The pages of a validated document hold the rows of its source pages, in order and complete, and
      the fallback to a single empty page is never taken. */
  lemma ValidDocumentConserved(doc: Document, wrap: Wrap)
    requires IsValid(doc)
    ensures AllResolve(doc) && Pages(doc, wrap) != []
    ensures HoldsPages(Pages(doc, wrap),
            Sources(doc.pages, BlockMap(doc.blocks), WrapWidth(doc.style, doc.paper), wrap))
  {
    ValidDocumentResolves(doc);
    var blocks, width, available := BlockMap(doc.blocks), WrapWidth(doc.style, doc.paper),
        AvailableLines(doc.style, doc.paper);
    DocumentConserved(doc.pages, blocks, width, wrap, available);
    var last := doc.pages[|doc.pages| - 1];
    assert last in doc.pages;
    SomethingIsDrawn(LaidRows(last.rows, blocks, width, wrap), [], available, available);
  }

  /** Every baseline of every page of a validated document lies between the bottom and the top
      margin, and the cut to 180 characters never shortens a line. */
  lemma EveryLineIsDrawnOnThePage(doc: Document, wrap: Wrap, rows: PageRows)
    requires IsValid(doc) && WrapContract(wrap)
    ensures AllResolve(doc)
    ensures rows in Pages(doc, wrap) ==>
      && Within(PageCommands(rows, FrameOf(doc)), Margin(doc.style) + LineHeight(doc.style),
                PageHeight(doc.paper) - Margin(doc.style))
      && Texts(PageCommands(rows, FrameOf(doc))) == PageTexts(rows)
      && (forall row <- rows :: NarrowRow(row, 115))
  {
    ValidDocumentResolves(doc);
    ValidStyleBounds(doc.style, doc.paper);
    if rows in Pages(doc, wrap) {
      var available, width := AvailableLines(doc.style, doc.paper), WrapWidth(doc.style, doc.paper);
      forall page <- doc.pages, row <- page.rows ensures row.columns != [] {
      }
      PagesAreGood(doc.pages, BlockMap(doc.blocks), width, wrap, available);
      assert GoodPage(rows, available, width);
      PageWithin(rows, FrameOf(doc), available);
      forall row <- rows ensures NarrowRow(row, 115) && forall cell <- row :: Narrow(cell.lines) {
        assert NarrowRow(row, width);
      }
      PageTextsDrawn(rows, FrameOf(doc));
    }
  }
}
