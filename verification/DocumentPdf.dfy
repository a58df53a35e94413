/** A validated document, its pages, their streams and the file that holds them. */
module DocumentPdf {
  import opened Options
  import opened ResumeDocument
  import opened Paginator
  import opened PaginatorTheorems
  import opened PageStream
  import opened PagePositions
  import opened RenderTheorems
  import opened PdfText
  import opened ContentStream
  import opened PdfWriter
  import opened PdfObjects

  function LayoutOf(doc: Document): Layout {
    Layout(PageWidth(doc.paper), PageHeight(doc.paper), FontName(doc.style.fontFamily),
        FontResource(doc.style.fontFamily))
  }

  /** The pages, or a single empty one. */
  function DrawnPages(doc: Document, wrap: Wrap): seq<PageRows>
    requires AllResolve(doc)
  {
    if Pages(doc, wrap) == [] then [[]] else Pages(doc, wrap)
  }

  function Streams(doc: Document, pages: seq<PageRows>, f: Formats): (streams: seq<string>)
    ensures |streams| == |pages|
  {
    seq(|pages|, i requires 0 <= i < |pages| => StreamBytes(StreamCommands(doc, pages[i]), f))
  }

  /** `render_document_pdf` */
  method RenderDocument(doc: Document, wrap: Wrap, f: Formats) returns (output: string, ghost objects: seq<string>)
    requires AllResolve(doc)
    ensures AreObjects(objects, Streams(doc, DrawnPages(doc, wrap), f), LayoutOf(doc))
    ensures output == File(objects, CatalogId(|DrawnPages(doc, wrap)|))
  {
    hide AllResolve, Pages, StreamBytes, StreamCommands, AreObjects, File;
    var pages := PaginateRows(doc, wrap);
    var streams: seq<string> := [];
    for n := 0 to |pages|
      invariant |streams| == n
      invariant forall i :: 0 <= i < n ==> streams[i] == StreamBytes(StreamCommands(doc, pages[i]), f)
    {
      var commands := DrawStream(doc, pages[n]);
      streams := streams + [StreamBytes(commands, f)];
    }
    assert streams == Streams(doc, pages, f);
    output, objects := RenderPdf(streams, LayoutOf(doc));
  }

  // ---- one page ---------------------------------------------------------------------------

  lemma {:induction false} CellFonts(lines: seq<Line>, x: int, top: int, f: Frame)
    ensures forall c <- CellCommands(lines, x, top, f) :: !c.Font?
  {
    if lines != [] {
      CellFonts(lines[..|lines| - 1], x, top, f);
    }
  }

  lemma {:induction false} RowFonts(row: LaidRow, top: int, f: Frame)
    ensures forall c <- RowCommands(row, top, f) :: !c.Font?
  {
    if row != [] {
      var n := |row| - 1;
      RowFonts(row[..n], top, f);
      CellFonts(row[n].lines, ColumnX(row[..n], f), top, f);
    }
  }

  lemma {:induction false} PageFonts(rows: PageRows, f: Frame)
    ensures forall c <- PageCommands(rows, f) :: !c.Font?
  {
    if rows != [] {
      var n := |rows| - 1;
      PageFonts(rows[..n], f);
      RowFonts(rows[n], RowTop(rows[..n], f), f);
    }
  }

  lemma NamesAre(family: string)
    ensures IsRegularWord(FontResource(family)) && IsName(FontResource(family)) && IsName(FontName(family))
  {
    FontsAre(family);
    hide FontResource, FontName;
  }

  const NO_PEN := Pen(0, 0, None)

  /** The marks of a page's stream are its spots. */
  lemma StreamMarks(doc: Document, rows: PageRows, f: Formats)
    ensures NameFonts(StreamCommands(doc, rows))
    ensures AllMarks(StreamCommands(doc, rows), START, f) ==
            MarksFor(Spots(PageCommands(rows, FrameOf(doc)), NO_PEN), FontResource(doc.style.fontFamily),
                     f.general(doc.style.fontSize), f)
  {
    var page, font := PageCommands(rows, FrameOf(doc)), Font(FontResource(doc.style.fontFamily), doc.style.fontSize);
    NamesAre(doc.style.fontFamily);
    PageFonts(rows, FrameOf(doc));
    hide PageCommands, IsRegularWord, Spots, FontResource, FrameOf, MarkFor;
    var tail := page + [EndText];
    assert StreamCommands(doc, rows) == [BeginText] + ([font] + tail);
    assert ([BeginText] + ([font] + tail))[1..] == [font] + tail && ([font] + tail)[1..] == tail;
    var g := GraphicsFor(NO_PEN, font.resource, f.general(font.size), f);
    assert AllMarks(StreamCommands(doc, rows), START, f) == AllMarks(tail, g, f);
    MarksAreSpots(tail, NO_PEN, g.font, g.size, f);
    SpotsConcat(page, [EndText], NO_PEN);
    OneSpot(EndText, PenAtEnd(page, NO_PEN));
    assert Spots(tail, NO_PEN) == Spots(page, NO_PEN);
  }

  /** The page, its margins and line height, and the colours of texts and headings. */
  function PageFrame(doc: Document): Frame {
    Frame(Margin(doc.style), LineHeight(doc.style), if doc.paper.Letter? then 612 else 595,
          if doc.paper.Letter? then 792 else 842, ToRgb(doc.style.textColor), ToRgb(doc.style.accentColor))
  }

  /** A page of a validated document, read from the bytes of its stream: line for line, row after row and
      column after column, each text with its line ends normalised, in its colour, in the document's font,
      where the grid has it; all of them between the margins, none cut short, and no two in one place. */
  lemma PageReadsBack(doc: Document, wrap: Wrap, f: Formats, rows: PageRows) returns (grid: seq<seq<seq<Spot>>>)
    requires IsValid(doc) && WrapContract(wrap) && FormatsContract(f)
    requires AllResolve(doc) && rows in Pages(doc, wrap)
    ensures ReadContent(StreamBytes(StreamCommands(doc, rows), f)) ==
            Some(MarksFor(Flatten(Flatten(grid)), FontResource(doc.style.fontFamily), f.general(doc.style.fontSize), f))
    ensures PagePlaced(grid, rows, PageFrame(doc)) && LinesOnPage(grid, rows, PageFrame(doc))
    ensures Apart(Flatten(Flatten(grid))) && forall row <- rows :: NarrowRow(row, 115)
  {
    hide StreamBytes, StreamCommands, Pages, PageCommands, ReadContent, AllMarks, Spots, PagePlaced, Apart,
        FormatsContract, NameFonts, Fits, Within, NarrowRow, WrapContract, IsValid, MarksFor, LinesOnPage;
    var frame := PageFrame(doc);
    FrameIs(doc);
    EveryLineIsDrawnOnThePage(doc, wrap, rows);
    PageFits(doc, wrap, rows);
    StreamMarks(doc, rows, f);
    StreamReads(StreamCommands(doc, rows), f);
    grid := PageShown(rows, frame, NO_PEN);
    GridOnPage(grid, rows, frame, AvailableLines(doc.style, doc.paper));
    LinesApart(rows, frame, NO_PEN);
  }

  lemma FrameIs(doc: Document)
    ensures FrameOf(doc) == PageFrame(doc)
  {
  }

  lemma PageFits(doc: Document, wrap: Wrap, rows: PageRows)
    requires IsValid(doc) && WrapContract(wrap) && AllResolve(doc) && rows in Pages(doc, wrap)
    ensures Fits(rows, AvailableLines(doc.style, doc.paper))
    ensures var f := PageFrame(doc);
      f.lineHeight > 0 && AvailableLines(doc.style, doc.paper) * f.lineHeight <= f.height - 2 * f.margin
  {
    ValidStyleBounds(doc.style, doc.paper);
    forall page <- doc.pages, row <- page.rows ensures row.columns != [] {
    }
    PagesAreGood(doc.pages, BlockMap(doc.blocks), WrapWidth(doc.style, doc.paper), wrap,
                 AvailableLines(doc.style, doc.paper));
  }

  /** What is read is exactly the texts if and only if none of them has a carriage return. */
  lemma ExactIffNoCr(spots: seq<Spot>, font: string, size: string, f: Formats)
    ensures (forall i :: 0 <= i < |spots| ==> MarksFor(spots, font, size, f)[i].bytes == Utf8(spots[i].text)) <==>
            (forall i :: 0 <= i < |spots| ==> '\r' !in spots[i].text)
  {
    hide Utf8, EolNormalized;
    forall i | 0 <= i < |spots|
      ensures Utf8(EolNormalized(spots[i].text)) == Utf8(spots[i].text) <==> '\r' !in spots[i].text
    {
      NormalizedIffNoCr(spots[i].text);
      Utf8KeepsCr(spots[i].text);
      Utf8KeepsCr(EolNormalized(spots[i].text));
    }
  }

  // ---- the file ---------------------------------------------------------------------------

  /** A content object that is written under its number, at the position the table gives for it. */
  predicate IsWritten(objects: seq<string>, rootId: nat, n: nat) {
    1 <= n < |objects| && FoundAt(File(objects, rootId), |Body(objects, n)|, Written(n, objects[n]))
  }

  lemma ObjectIsWritten(objects: seq<string>, rootId: nat, n: nat)
    requires 1 <= n < |objects|
    ensures IsWritten(objects, rootId, n)
  {
    hide File, Body, Written, FoundAt;
    ObjectInFile(objects, rootId, n);
  }

  /** Page `i` as it stands in the file: a page object and a content object, each at the position of the
      number it is written under; the page has the paper's size and the document's font, and the content is
      the stream `stream`. */
  predicate PageInFile(objects: seq<string>, rootId: nat, id: nat, doc: Document, stream: string) {
    && IsPage(objects, id, stream,
        Layout(if doc.paper.Letter? then 612 else 595, if doc.paper.Letter? then 792 else 842,
                                          FontName(doc.style.fontFamily), FontResource(doc.style.fontFamily)))
    && IsWritten(objects, rootId, id - 1)
    && IsWritten(objects, rootId, ReadPage(objects[id - 1]).value.contents - 1)
  }

  lemma PaperIs(doc: Document)
    ensures LayoutOf(doc) == Layout(if doc.paper.Letter? then 612 else 595, if doc.paper.Letter? then 792 else 842,
                                    FontName(doc.style.fontFamily), FontResource(doc.style.fontFamily))
  {
  }

  lemma PageIsInFile(objects: seq<string>, rootId: nat, streams: seq<string>, doc: Document, i: nat)
    requires AreObjects(objects, streams, LayoutOf(doc)) && i < |streams|
    ensures PageInFile(objects, rootId, PageId(i), doc, streams[i])
  {
    NamesAre(doc.style.fontFamily);
    hide IsName, FontName, FontResource, AreObjects, IsWritten, ReadStream, ReadFont, ReadPage, PageWidth, PageHeight;
    PaperIs(doc);
    PageStands(objects, streams, LayoutOf(doc), i);
    ContentIsThere(objects, streams, LayoutOf(doc), i);
    ObjectIsWritten(objects, rootId, PageId(i) - 1);
    ObjectIsWritten(objects, rootId, ContentId(i) - 1);
  }

  lemma ContentIsThere(objects: seq<string>, streams: seq<string>, l: Layout, i: nat)
    requires AreObjects(objects, streams, l) && IsName(l.resource) && i < |streams|
    ensures |objects| == 2 * |streams| + 4
    ensures ReadPage(objects[PageId(i) - 1]).Got? && ReadPage(objects[PageId(i) - 1]).value.contents == ContentId(i)
  {
    hide ReadPage, PageObject, AreObjects, IsName;
    PageObjectsAre(objects, streams, l, i);
    PageReads(PagesId(|streams|), FontId(|streams|), ContentId(i), l);
  }

  /** The file of a validated document: a catalog that names the page tree, a tree that lists as many pages as
      the document was laid out on, and page by page its object, its size, its font and its content, from
      which a reader gets the lines of the page where `PageReadsBack` has them. */
  lemma PagesAreInTheFile(doc: Document, wrap: Wrap, f: Formats, objects: seq<string>, i: nat)
    requires IsValid(doc)
    ensures AllResolve(doc) && DrawnPages(doc, wrap) == Pages(doc, wrap)
    ensures
      (&& WrapContract(wrap) && FormatsContract(f) && i < |Pages(doc, wrap)|
       && AreObjects(objects, Streams(doc, Pages(doc, wrap), f), LayoutOf(doc))) ==>
      (&& |objects| >= 2 && ReadCatalog(objects[|objects| - 1]) == Got(|objects| - 1, "")
       && ReadTree(objects[|objects| - 2]).Got?
       && var tree := ReadTree(objects[|objects| - 2]).value;
       && tree.count == |tree.kids| == |Pages(doc, wrap)|
       && PageInFile(objects, CatalogId(|Pages(doc, wrap)|), tree.kids[i], doc,
                     StreamBytes(StreamCommands(doc, Pages(doc, wrap)[i]), f)))
  {
    hide ReadStream, StreamBytes, StreamCommands, AreObjects, IsValid, IsWritten, Pages, PageInFile, ReadTree,
        ReadCatalog;
    ValidDocumentConserved(doc, wrap);
    var pages := Pages(doc, wrap);
    if WrapContract(wrap) && FormatsContract(f) && i < |pages|
       && AreObjects(objects, Streams(doc, pages, f), LayoutOf(doc)) {
      var streams := Streams(doc, pages, f);
      NamesAre(doc.style.fontFamily);
      PageIsInFile(objects, CatalogId(|pages|), streams, doc, i);
      ObjectsAre(objects, streams, LayoutOf(doc));
      CatalogReads(PagesId(|pages|));
      TreeReads(PageIds(|pages|));
    }
  }
}
