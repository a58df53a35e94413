/** Which blocks a document shows: the visible ones, each once and whole, and nothing of a hidden one. */
module VisibleBlocks {
  import opened Options
  import opened ResumeDocument
  import opened Paginator
  import opened PaginatorTheorems
  import opened PageStream
  import opened RenderTheorems

  /** The blocks behind the references, hidden ones left out. */
  function VisibleOnes(refs: seq<string>, blocks: Blocks): seq<Block>
    requires forall id <- refs :: id in blocks
  {
    if refs == [] then []
    else
      var n := |refs| - 1;
      VisibleOnes(refs[..n], blocks) + if blocks[refs[n]].visible then [blocks[refs[n]]] else []
  }

  function LinesOf(shown: seq<Block>, maxChars: nat, wrap: Wrap): seq<Line> {
    if shown == [] then [] else BlockLines(shown[0], maxChars, wrap) + LinesOf(shown[1..], maxChars, wrap)
  }

  lemma {:induction false} LinesOfMore(shown: seq<Block>, more: seq<Block>, maxChars: nat, wrap: Wrap)
    ensures LinesOf(shown + more, maxChars, wrap) == LinesOf(shown, maxChars, wrap) + LinesOf(more, maxChars, wrap)
  {
    hide BlockLines;
    if shown == [] {
      assert shown + more == more;
    } else {
      assert (shown + more)[1..] == shown[1..] + more;
      LinesOfMore(shown[1..], more, maxChars, wrap);
    }
  }

  lemma OneBlock(block: Block, maxChars: nat, wrap: Wrap)
    ensures LinesOf([block], maxChars, wrap) == BlockLines(block, maxChars, wrap)
  {
    assert [block][1..] == [];
  }

  lemma OneSection(id: string, blocks: Blocks, maxChars: nat, wrap: Wrap)
    requires id in blocks
    ensures SectionLines([id], blocks, maxChars, wrap) ==
            if blocks[id].visible then BlockLines(blocks[id], maxChars, wrap) else []
  {
    assert [id][1..] == [];
  }

  lemma {:induction false} SectionsShowVisibleOnes(refs: seq<string>, blocks: Blocks, maxChars: nat, wrap: Wrap)
    requires forall id <- refs :: id in blocks
    ensures SectionLines(refs, blocks, maxChars, wrap) == LinesOf(VisibleOnes(refs, blocks), maxChars, wrap)
  {
    hide BlockLines;
    if refs != [] {
      var n := |refs| - 1;
      var block := blocks[refs[n]];
      SectionsShowVisibleOnes(refs[..n], blocks, maxChars, wrap);
      assert refs == refs[..n] + [refs[n]];
      SectionLinesConcat(refs[..n], [refs[n]], blocks, maxChars, wrap);
      OneSection(refs[n], blocks, maxChars, wrap);
      if block.visible {
        LinesOfMore(VisibleOnes(refs[..n], blocks), [block], maxChars, wrap);
        OneBlock(block, maxChars, wrap);
      } else {
        assert VisibleOnes(refs, blocks) == VisibleOnes(refs[..n], blocks);
        assert SectionLines(refs, blocks, maxChars, wrap) == SectionLines(refs[..n], blocks, maxChars, wrap);
      }
    }
  }

  lemma {:induction false} VisibleOnesAre(refs: seq<string>, blocks: Blocks)
    requires forall id <- refs :: id in blocks && blocks[id].id == id
    ensures forall b :: b in VisibleOnes(refs, blocks) <==> b.id in refs && blocks[b.id] == b && b.visible
  {
    if refs != [] {
      var n := |refs| - 1;
      VisibleOnesAre(refs[..n], blocks);
      forall b
        ensures b in VisibleOnes(refs, blocks) <==> b.id in refs && blocks[b.id] == b && b.visible
      {
        assert b.id in refs <==> b.id in refs[..n] || b.id == refs[n];
      }
    }
  }

  lemma LastIsNew(refs: seq<string>)
    requires refs != [] && NoDuplicates(refs)
    ensures refs[|refs| - 1] !in refs[..|refs| - 1]
  {
  }

  lemma {:induction false} VisibleOnesDiffer(refs: seq<string>, blocks: Blocks)
    requires (forall id <- refs :: id in blocks && blocks[id].id == id) && NoDuplicates(refs)
    ensures NoDuplicates(VisibleOnes(refs, blocks))
  {
    if refs != [] {
      var n := |refs| - 1;
      VisibleOnesDiffer(refs[..n], blocks);
      VisibleOnesAre(refs[..n], blocks);
      var before := VisibleOnes(refs[..n], blocks);
      LastIsNew(refs);
      assert blocks[refs[n]] !in before;
    }
  }

  /** What a valid document lays out is its visible blocks, every one of them once, in layout order. */
  lemma VisibleBlocksInOrder(doc: Document, maxChars: nat, wrap: Wrap)
    requires FirstLayoutError(doc) == None
    ensures AllResolve(doc) && forall id <- References(doc.pages) :: id in BlockMap(doc.blocks)
    ensures var shown := VisibleOnes(References(doc.pages), BlockMap(doc.blocks));
      && PagesLines(doc.pages, BlockMap(doc.blocks), maxChars, wrap) == LinesOf(shown, maxChars, wrap)
      && NoDuplicates(shown) && (forall b :: b in shown <==> b in doc.blocks && b.visible)
  {
    var blocks, refs := BlockMap(doc.blocks), References(doc.pages);
    ValidDocumentResolves(doc);
    PagesLinesFollowReferences(doc.pages, blocks, maxChars, wrap);
    SectionsShowVisibleOnes(refs, blocks, maxChars, wrap);
    BlockMapIds(doc.blocks);
    VisibleOnesAre(refs, blocks);
    SizeTellsDuplicates(refs);
    VisibleOnesDiffer(refs, blocks);
    hide FirstLayoutError, PagesLines, LinesOf, BlockMap, References;
    forall b: Block
      ensures b.id in refs && blocks[b.id] == b <==> b in doc.blocks
    {
      ReferencedIff(doc, b);
    }
  }

  lemma ReferencedIff(doc: Document, b: Block)
    requires FirstLayoutError(doc) == None
    ensures b.id in References(doc.pages) && b.id in BlockMap(doc.blocks) && BlockMap(doc.blocks)[b.id] == b <==>
            b in doc.blocks
  {
    BlockMapIds(doc.blocks);
    if b in doc.blocks {
      EachBlockReferencedOnce(doc, b);
      var i :| 0 <= i < |doc.blocks| && doc.blocks[i] == b;
      assert BlockIds(doc.blocks)[i] == b.id;
      DistinctIds(doc, BlockMap(doc.blocks)[b.id], b);
    }
  }

  /** The lines laid out are those of the visible blocks before a visible one, its own, and those of the
      visible blocks after it, and no other reference is to that block: it is drawn exactly once. */
  lemma VisibleBlockDrawnOnce(doc: Document, b: Block, maxChars: nat, wrap: Wrap) returns (k: nat)
    requires FirstLayoutError(doc) == None && b in doc.blocks && b.visible
    ensures AllResolve(doc)
    ensures var refs, blocks := References(doc.pages), BlockMap(doc.blocks);
      && k < |refs| && refs[k] == b.id && b.id !in refs[..k] && b.id !in refs[k + 1..]
      && (forall id <- refs :: id in blocks)
      && PagesLines(doc.pages, blocks, maxChars, wrap)
         == LinesOf(VisibleOnes(refs[..k], blocks), maxChars, wrap) + BlockLines(b, maxChars, wrap)
            + LinesOf(VisibleOnes(refs[k + 1..], blocks), maxChars, wrap)
  {
    var blocks := BlockMap(doc.blocks);
    ValidDocumentResolves(doc);
    PagesLinesFollowReferences(doc.pages, blocks, maxChars, wrap);
    k := PlaceOf(doc, b);
    assert b.id in blocks && blocks[b.id] == b by {
      BlockMapIds(doc.blocks);
      DistinctIds(doc, blocks[b.id], b);
    }
    var refs := References(doc.pages);
    SplitAt(refs, k, blocks, maxChars, wrap);
    SectionsShowVisibleOnes(refs[..k], blocks, maxChars, wrap);
    SectionsShowVisibleOnes(refs[k + 1..], blocks, maxChars, wrap);
  }

  // ---- on the pages that are drawn --------------------------------------------------------

  /** All lines of a row, from whichever column. */
  function RowBag(row: LaidRow): multiset<Line> {
    if row == [] then multiset{} else multiset(row[0].lines) + RowBag(row[1..])
  }

  function RowsBag(rows: seq<LaidRow>): multiset<Line> {
    if rows == [] then multiset{} else RowBag(rows[0]) + RowsBag(rows[1..])
  }

  lemma {:induction false} RowsBagMore(a: seq<LaidRow>, b: seq<LaidRow>)
    ensures RowsBag(a + b) == RowsBag(a) + RowsBag(b)
  {
    if a == [] {
      assert a + b == b;
    } else {
      assert (a + b)[1..] == a[1..] + b;
      RowsBagMore(a[1..], b);
    }
  }

  lemma {:induction false} GlueBag(a: LaidRow, b: LaidRow)
    requires |a| == |b|
    ensures RowBag(Glue(a, b)) == RowBag(a) + RowBag(b)
  {
    if a != [] {
      assert Glue(a, b)[1..] == Glue(a[1..], b[1..]);
      GlueBag(a[1..], b[1..]);
    }
  }

  lemma {:induction false} JoinedBag(fragments: seq<LaidRow>, columns: nat)
    requires fragments != [] && forall f <- fragments :: |f| == columns
    ensures |Joined(fragments)| == columns && RowBag(Joined(fragments)) == RowsBag(fragments)
  {
    if |fragments| == 1 {
      assert fragments[1..] == [];
    } else {
      assert forall f <- fragments[1..] :: f in fragments;
      JoinedBag(fragments[1..], columns);
      assert fragments[0] in fragments;
      hide Glue, RowBag;
      GlueBag(fragments[0], Joined(fragments[1..]));
    }
  }

  lemma {:induction false} AssembledBag(fragments: seq<LaidRow>, rows: seq<LaidRow>)
    requires Assembles(fragments, rows)
    ensures RowsBag(fragments) == RowsBag(rows)
    decreases |rows|
  {
    hide IsCut, RowBag;
    if rows != [] {
      var n :| 0 < n <= |fragments| && IsCut(fragments[..n], rows[0]) && Assembles(fragments[n..], rows[1..]);
      CutBag(fragments[..n], rows[0]);
      AssembledBag(fragments[n..], rows[1..]);
      assert fragments == fragments[..n] + fragments[n..];
      RowsBagMore(fragments[..n], fragments[n..]);
    }
  }

  lemma CutBag(fragments: seq<LaidRow>, row: LaidRow)
    requires IsCut(fragments, row)
    ensures RowsBag(fragments) == RowBag(row)
  {
    hide RowsBag, RowBag, Joined;
    JoinedBag(fragments, |row|);
  }

  function SourcesBag(sources: seq<seq<LaidRow>>): multiset<Line> {
    if sources == [] then multiset{} else SourcesBag(sources[..|sources| - 1]) + RowsBag(sources[|sources| - 1])
  }

  lemma {:induction false} HeldBag(out: seq<PageRows>, sources: seq<seq<LaidRow>>)
    requires HoldsPages(out, sources)
    ensures RowsBag(Flatten(out)) == SourcesBag(sources)
    decreases |sources|
  {
    hide Assembles, Flatten, RowsBag;
    if sources == [] {
      NoBag();
    } else {
      var k := |sources| - 1;
      var n :| 0 <= n <= |out| && HoldsPages(out[..n], sources[..k]) && Assembles(Flatten(out[n..]), sources[k]);
      HeldBag(out[..n], sources[..k]);
      AssembledBag(Flatten(out[n..]), sources[k]);
      assert out == out[..n] + out[n..];
      FlattenConcat(out[..n], out[n..]);
      RowsBagMore(Flatten(out[..n]), Flatten(out[n..]));
    }
  }

  lemma NoBag()
    ensures Flatten<LaidRow>([]) == [] && RowsBag([]) == multiset{}
  {
  }

  lemma {:induction false} CellLinesBag(row: LaidRow)
    ensures multiset(CellLines(row)) == RowBag(row)
  {
    if row != [] {
      CellLinesBag(row[1..]);
      BagsAdd(row[0].lines, CellLines(row[1..]));
    }
  }

  lemma BagsAdd<T>(a: seq<T>, b: seq<T>)
    ensures multiset(a + b) == multiset(a) + multiset(b)
  {
  }

  lemma {:induction false} RowsLinesBag(rows: seq<LaidRow>)
    ensures multiset(RowsLines(rows)) == RowsBag(rows)
  {
    if rows != [] {
      CellLinesBag(rows[0]);
      RowsLinesBag(rows[1..]);
      BagsAdd(CellLines(rows[0]), RowsLines(rows[1..]));
    }
  }

  lemma {:induction false} SourcesBagFront(first: seq<LaidRow>, later: seq<seq<LaidRow>>)
    ensures SourcesBag([first] + later) == RowsBag(first) + SourcesBag(later)
  {
    hide RowsBag;
    var all := [first] + later;
    if later == [] {
      assert all[..0] == [] && SourcesBag(all[..0]) == multiset{};
    } else {
      var n := |later| - 1;
      assert all[..|all| - 1] == [first] + later[..n] && all[|all| - 1] == later[n];
      SourcesBagFront(first, later[..n]);
      Added(RowsBag(first), SourcesBag(later[..n]), RowsBag(later[n]));
    }
  }

  lemma Added(a: multiset<Line>, b: multiset<Line>, c: multiset<Line>)
    ensures (a + b) + c == a + (b + c)
  {
  }

  lemma {:induction false} PagesLinesBag(pages: seq<Page>, blocks: Blocks, maxChars: nat, wrap: Wrap)
    requires forall page <- pages :: forall row <- page.rows :: Resolves(row, blocks)
    ensures multiset(PagesLines(pages, blocks, maxChars, wrap)) == SourcesBag(Sources(pages, blocks, maxChars, wrap))
  {
    hide LaidRows, Resolves, RowsBag, RowsLines, SourcesBag;
    if pages == [] {
      NoSources();
    } else {
      assert forall page <- pages[1..] :: page in pages;
      assert pages[0] in pages;
      PagesLinesBag(pages[1..], blocks, maxChars, wrap);
      var first := LaidRows(pages[0].rows, blocks, maxChars, wrap);
      RowsLinesBag(first);
      BagsAdd(RowsLines(first), PagesLines(pages[1..], blocks, maxChars, wrap));
      SourcesBagFront(first, Sources(pages[1..], blocks, maxChars, wrap));
      assert Sources(pages, blocks, maxChars, wrap) == [first] + Sources(pages[1..], blocks, maxChars, wrap);
    }
  }

  lemma NoSources()
    ensures SourcesBag([]) == multiset{}
  {
  }

  /** On the pages of a validated document stand the lines of its visible blocks, each as often as the
      blocks have it, and no others. */
  lemma PagesHoldVisibleBlocks(doc: Document, wrap: Wrap)
    requires IsValid(doc)
    ensures AllResolve(doc) && forall id <- References(doc.pages) :: id in BlockMap(doc.blocks)
    ensures RowsBag(Flatten(Pages(doc, wrap))) ==
            multiset(LinesOf(VisibleOnes(References(doc.pages), BlockMap(doc.blocks)),
                             WrapWidth(doc.style, doc.paper), wrap))
  {
    hide RowsBag, Flatten, LinesOf, VisibleOnes, HoldsPages, Sources, BlockMap, References;
    var width := WrapWidth(doc.style, doc.paper);
    ValidDocumentConserved(doc, wrap);
    VisibleBlocksInOrder(doc, width, wrap);
    HeldBag(Pages(doc, wrap), Sources(doc.pages, BlockMap(doc.blocks), width, wrap));
    PagesLinesBag(doc.pages, BlockMap(doc.blocks), width, wrap);
  }

  // ---- columns ----------------------------------------------------------------------------

  /** The lines of the visible blocks of column `k` from line `a` on. */
  function ColumnPart(row: Row, k: nat, blocks: Blocks, maxChars: nat, wrap: Wrap, a: nat): seq<Line>
    requires k < |row.columns| && Resolves(row, blocks)
  {
    Suffix(LinesOf(VisibleOnes(row.columns[k].sectionIds, blocks), maxChars, wrap), a)
  }

  /** As many columns as the row, with their widths and what is left of their lines. */
  predicate IsRest(laid: LaidRow, row: Row, blocks: Blocks, maxChars: nat, wrap: Wrap, a: nat) {
    && Resolves(row, blocks) && |laid| == |row.columns|
    && forall k :: 0 <= k < |laid| ==>
         laid[k].width == row.columns[k].width && laid[k].lines == ColumnPart(row, k, blocks, maxChars, wrap, a)
  }

  /** As many columns as the row, with their widths and from each the lines `a` to `a + n`. */
  predicate IsPiece(laid: LaidRow, row: Row, blocks: Blocks, maxChars: nat, wrap: Wrap, a: nat, n: nat) {
    && Resolves(row, blocks) && |laid| == |row.columns|
    && forall k :: 0 <= k < |laid| ==>
         && laid[k].width == row.columns[k].width
         && laid[k].lines == Prefix(ColumnPart(row, k, blocks, maxChars, wrap, a), n)
  }

  ghost predicate RestOfSome(laid: LaidRow, rows: seq<Row>, blocks: Blocks, maxChars: nat, wrap: Wrap) {
    exists i: nat, a: nat :: i < |rows| && IsRest(laid, rows[i], blocks, maxChars, wrap, a)
  }

  ghost predicate PieceOfSome(laid: LaidRow, rows: seq<Row>, blocks: Blocks, maxChars: nat, wrap: Wrap) {
    exists i: nat, a: nat, n: nat :: i < |rows| && IsPiece(laid, rows[i], blocks, maxChars, wrap, a, n)
  }

  lemma CutRest(laid: LaidRow, row: Row, blocks: Blocks, maxChars: nat, wrap: Wrap, a: nat, n: nat)
    requires IsRest(laid, row, blocks, maxChars, wrap, a)
    ensures IsPiece(TakeLines(laid, n), row, blocks, maxChars, wrap, a, n)
    ensures IsRest(DropLines(laid, n), row, blocks, maxChars, wrap, a + n)
  {
    hide LinesOf, VisibleOnes, Resolves;
  }

  lemma {:induction false} PagesArePieces(pending: seq<LaidRow>, current: PageRows, remaining: int, available: int,
      rows: seq<Row>, blocks: Blocks, maxChars: nat, wrap: Wrap)
    requires forall laid <- pending :: RestOfSome(laid, rows, blocks, maxChars, wrap)
    requires forall laid <- current :: PieceOfSome(laid, rows, blocks, maxChars, wrap)
    ensures forall page <- Paginate(pending, current, remaining, available) ::
              forall laid <- page :: PieceOfSome(laid, rows, blocks, maxChars, wrap)
    decreases Cost(pending)
  {
    hide IsRest, IsPiece, TakeLines, DropLines;
    if pending != [] {
      var take := Taken(pending[0], current, remaining);
      var after, page := After(pending, take), current + [TakeLines(pending[0], take)];
      LoopProgress(pending, current, remaining);
      assert pending[0] in pending;
      var i: nat, a: nat :| i < |rows| && IsRest(pending[0], rows[i], blocks, maxChars, wrap, a);
      CutRest(pending[0], rows[i], blocks, maxChars, wrap, a, take);
      forall laid <- after ensures RestOfSome(laid, rows, blocks, maxChars, wrap) {
        assert laid in pending[1..] ==> laid in pending;
      }
      if ClosesPage(pending, current, remaining) {
        PagesArePieces(after, [], available, available, rows, blocks, maxChars, wrap);
      } else {
        PagesArePieces(after, page, remaining - (take + 1), available, rows, blocks, maxChars, wrap);
      }
    }
  }

  lemma RowsAreRests(rows: seq<Row>, blocks: Blocks, maxChars: nat, wrap: Wrap)
    requires forall row <- rows :: Resolves(row, blocks)
    ensures forall laid <- LaidRows(rows, blocks, maxChars, wrap) :: RestOfSome(laid, rows, blocks, maxChars, wrap)
  {
    var all := LaidRows(rows, blocks, maxChars, wrap);
    forall i: nat | i < |rows|
      ensures IsRest(all[i], rows[i], blocks, maxChars, wrap, 0)
    {
      RowIsRest(rows[i], blocks, maxChars, wrap);
    }
  }

  lemma RowIsRest(row: Row, blocks: Blocks, maxChars: nat, wrap: Wrap)
    requires Resolves(row, blocks)
    ensures IsRest(RowLines(row, blocks, maxChars, wrap), row, blocks, maxChars, wrap, 0)
  {
    hide LinesOf, VisibleOnes, SectionLines;
    forall k | 0 <= k < |row.columns|
      ensures RowLines(row, blocks, maxChars, wrap)[k].lines == ColumnPart(row, k, blocks, maxChars, wrap, 0)
    {
      assert row.columns[k] in row.columns;
      SectionsShowVisibleOnes(row.columns[k].sectionIds, blocks, maxChars, wrap);
    }
  }

  ghost predicate PieceOfPages(laid: LaidRow, pages: seq<Page>, blocks: Blocks, maxChars: nat, wrap: Wrap) {
    exists p: nat :: p < |pages| && PieceOfSome(laid, pages[p].rows, blocks, maxChars, wrap)
  }

  lemma {:induction false} DocumentPieces(pages: seq<Page>, blocks: Blocks, maxChars: nat, wrap: Wrap, available: int)
    requires forall page <- pages :: forall row <- page.rows :: Resolves(row, blocks)
    ensures forall out <- PaginatePages(pages, blocks, maxChars, wrap, available) ::
              forall laid <- out :: PieceOfPages(laid, pages, blocks, maxChars, wrap)
  {
    hide PieceOfSome, RestOfSome, Paginate, LaidRows;
    if pages != [] {
      var n := |pages| - 1;
      assert pages[n] in pages && forall page <- pages[..n] :: page in pages;
      DocumentPieces(pages[..n], blocks, maxChars, wrap, available);
      RowsAreRests(pages[n].rows, blocks, maxChars, wrap);
      PagesArePieces(LaidRows(pages[n].rows, blocks, maxChars, wrap), [], available, available, pages[n].rows, blocks,
                     maxChars, wrap);
      forall laid | PieceOfPages(laid, pages[..n], blocks, maxChars, wrap)
        ensures PieceOfPages(laid, pages, blocks, maxChars, wrap)
      {
        var p: nat :| p < n && PieceOfSome(laid, pages[..n][p].rows, blocks, maxChars, wrap);
        assert pages[..n][p] == pages[p];
      }
    }
  }

  /** Every row on every page is a row of the layout: the same columns with the same widths, and in each the
      same stretch of the lines of that column's visible blocks. */
  lemma RowsKeepTheirColumns(doc: Document, wrap: Wrap, out: PageRows, laid: LaidRow)
    requires FirstLayoutError(doc) == None
    ensures AllResolve(doc)
    ensures out in Pages(doc, wrap) && laid in out ==>
            PieceOfPages(laid, doc.pages, BlockMap(doc.blocks), WrapWidth(doc.style, doc.paper), wrap)
  {
    ValidDocumentResolves(doc);
    DocumentPieces(doc.pages, BlockMap(doc.blocks), WrapWidth(doc.style, doc.paper), wrap,
                   AvailableLines(doc.style, doc.paper));
  }

  // ---- hidden blocks ----------------------------------------------------------------------

  /** Alike but for hidden blocks. */
  predicate ShowAlike(a: Blocks, b: Blocks) {
    && a.Keys == b.Keys
    && forall id <- a :: a[id] == b[id] || (!a[id].visible && !b[id].visible)
  }

  lemma {:induction false} SectionsAlike(ids: seq<string>, a: Blocks, b: Blocks, maxChars: nat, wrap: Wrap)
    requires ShowAlike(a, b) && forall id <- ids :: id in a
    ensures SectionLines(ids, a, maxChars, wrap) == SectionLines(ids, b, maxChars, wrap)
  {
    hide BlockLines;
    if ids != [] {
      SectionsAlike(ids[1..], a, b, maxChars, wrap);
    }
  }

  lemma RowLinesAlike(row: Row, a: Blocks, b: Blocks, maxChars: nat, wrap: Wrap)
    requires ShowAlike(a, b) && Resolves(row, a)
    ensures Resolves(row, b) && RowLines(row, a, maxChars, wrap) == RowLines(row, b, maxChars, wrap)
  {
    forall k | 0 <= k < |row.columns|
      ensures RowLines(row, a, maxChars, wrap)[k].lines ==
              SectionLines(row.columns[k].sectionIds, b, maxChars, wrap)
    {
      assert row.columns[k] in row.columns;
      SectionsAlike(row.columns[k].sectionIds, a, b, maxChars, wrap);
    }
  }

  lemma LaidRowsAlike(rows: seq<Row>, a: Blocks, b: Blocks, maxChars: nat, wrap: Wrap)
    requires ShowAlike(a, b) && forall row <- rows :: Resolves(row, a)
    ensures forall row <- rows :: Resolves(row, b)
    ensures LaidRows(rows, a, maxChars, wrap) == LaidRows(rows, b, maxChars, wrap)
  {
    hide RowLines, Resolves, ShowAlike;
    forall row <- rows
      ensures Resolves(row, b) && RowLines(row, a, maxChars, wrap) == RowLines(row, b, maxChars, wrap)
    {
      RowLinesAlike(row, a, b, maxChars, wrap);
    }
  }

  lemma ResolveAlike(pages: seq<Page>, a: Blocks, b: Blocks)
    requires ShowAlike(a, b) && forall page <- pages :: forall row <- page.rows :: Resolves(row, a)
    ensures forall page <- pages :: forall row <- page.rows :: Resolves(row, b)
  {
  }

  lemma {:induction false} PagesAlike(pages: seq<Page>, a: Blocks, b: Blocks, maxChars: nat, wrap: Wrap,
      available: int)
    requires ShowAlike(a, b) && forall page <- pages :: forall row <- page.rows :: Resolves(row, a)
    requires forall page <- pages :: forall row <- page.rows :: Resolves(row, b)
    ensures PaginatePages(pages, a, maxChars, wrap, available) == PaginatePages(pages, b, maxChars, wrap, available)
  {
    hide LaidRows, Paginate, ShowAlike, Resolves;
    if pages != [] {
      var n := |pages| - 1;
      PagesAlike(pages[..n], a, b, maxChars, wrap, available);
      LaidRowsAlike(pages[n].rows, a, b, maxChars, wrap);
    }
  }

  /** The same layout and style over other blocks. */
  predicate DiffersInHidden(doc: Document, blocks: seq<Block>) {
    && |blocks| == |doc.blocks|
    && forall i :: 0 <= i < |blocks| ==>
         && blocks[i].id == doc.blocks[i].id
         && (blocks[i] == doc.blocks[i] || (!blocks[i].visible && !doc.blocks[i].visible))
  }

  lemma {:induction false} MapsAlike(a: seq<Block>, b: seq<Block>)
    requires |a| == |b| && forall i :: 0 <= i < |a| ==>
               a[i].id == b[i].id && (a[i] == b[i] || (!a[i].visible && !b[i].visible))
    ensures ShowAlike(BlockMap(a), BlockMap(b))
  {
    if a != [] {
      MapsAlike(a[..|a| - 1], b[..|b| - 1]);
    }
  }

  /** Whatever is changed in hidden blocks, title and content included: every page is drawn as before. */
  lemma HiddenBlocksChangeNothing(doc: Document, blocks: seq<Block>, wrap: Wrap)
    requires FirstLayoutError(doc) == None && DiffersInHidden(doc, blocks)
    ensures FirstLayoutError(doc.(blocks := blocks)) == None
    ensures AllResolve(doc) && AllResolve(doc.(blocks := blocks))
    ensures Pages(doc.(blocks := blocks), wrap) == Pages(doc, wrap)
    ensures forall rows :: StreamCommands(doc.(blocks := blocks), rows) == StreamCommands(doc, rows)
  {
    assert BlockIds(blocks) == BlockIds(doc.blocks);
    ValidDocumentResolves(doc);
    MapsAlike(doc.blocks, blocks);
    ResolveAlike(doc.pages, BlockMap(doc.blocks), BlockMap(blocks));
    PagesAlike(doc.pages, BlockMap(doc.blocks), BlockMap(blocks), WrapWidth(doc.style, doc.paper), wrap,
               AvailableLines(doc.style, doc.paper));
  }
}
