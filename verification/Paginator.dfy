/** Laying out a resume: blocks to lines, rows to page fragments. */
module Paginator {
  import opened PythonText
  import opened ResumeDocument

  /** `textwrap.wrap(text, width, replace_whitespace=False)`, of which only its width bound is used. */
  type Wrap = (string, nat) -> seq<string>

  ghost predicate WrapContract(wrap: Wrap) {
    forall text: string, width: nat :: width > 0 ==> forall chunk <- wrap(text, width) :: |chunk| <= width
  }

  datatype Line = Line(text: string, heading: bool)
  datatype Cell = Cell(width: real, lines: seq<Line>)
  type LaidRow = seq<Cell>
  type PageRows = seq<LaidRow>

  // ---- lines of a block -------------------------------------------------------------------

  function NonBlank(lines: seq<string>, prefix: string): seq<Line> {
    if lines == [] then []
    else (if Strip(lines[0]) != "" then [Line(prefix + lines[0], false)] else []) + NonBlank(lines[1..], prefix)
  }

  function ValueLines(value: Value): seq<Line> {
    match value
    case Text(text) => if Strip(text) != "" then NonBlank(SplitLines(text), "") else []
    case Items(items) => NonBlank(items, "- ")
    case Other => []
  }

  function ContentLines(content: seq<(string, Value)>): seq<Line> {
    if content == [] then [] else ContentLines(content[..|content| - 1]) + ValueLines(content[|content| - 1].1)
  }

  function Chunks(line: Line, maxChars: nat, wrap: Wrap): seq<Line> {
    var chunks := if wrap(line.text, maxChars) == [] then [""] else wrap(line.text, maxChars);
    seq(|chunks|, i requires 0 <= i < |chunks| => Line(chunks[i], line.heading && i == 0))
  }

  function Wrapped(lines: seq<Line>, maxChars: nat, wrap: Wrap): seq<Line> {
    if lines == [] then []
    else Wrapped(lines[..|lines| - 1], maxChars, wrap) + Chunks(lines[|lines| - 1], maxChars, wrap)
  }

  function BlockLines(block: Block, maxChars: nat, wrap: Wrap): seq<Line> {
    Wrapped([Line(block.title, true)] + ContentLines(block.content), maxChars, wrap) + [Line("", false)]
  }

  lemma Associative<T>(a: seq<T>, b: seq<T>, c: seq<T>)
    ensures (a + b) + c == a + (b + c)
  {
  }

  lemma ContentLinesStep(content: seq<(string, Value)>, n: nat)
    requires n < |content|
    ensures ContentLines(content[..n + 1]) == ContentLines(content[..n]) + ValueLines(content[n].1)
  {
    assert content[..n + 1][..n] == content[..n];
  }

  lemma WrappedStep(lines: seq<Line>, n: nat, maxChars: nat, wrap: Wrap)
    requires n < |lines|
    ensures Wrapped(lines[..n + 1], maxChars, wrap) ==
            Wrapped(lines[..n], maxChars, wrap) + Chunks(lines[n], maxChars, wrap)
  {
    assert lines[..n + 1][..n] == lines[..n];
  }

  method CollectLines(block: Block) returns (lines: seq<Line>)
    ensures lines == [Line(block.title, true)] + ContentLines(block.content)
  {
    lines := [Line(block.title, true)];
    ghost var title := lines;
    for n := 0 to |block.content|
      invariant lines == title + ContentLines(block.content[..n])
    {
      ContentLinesStep(block.content, n);
      Associative(title, ContentLines(block.content[..n]), ValueLines(block.content[n].1));
      lines := lines + ValueLines(block.content[n].1);
    }
    assert block.content[..|block.content|] == block.content;
  }

  method LayOutBlock(block: Block, maxChars: nat, wrap: Wrap) returns (wrapped: seq<Line>)
    ensures wrapped == BlockLines(block, maxChars, wrap)
  {
    var lines := CollectLines(block);
    wrapped := [];
    for n := 0 to |lines|
      invariant wrapped == Wrapped(lines[..n], maxChars, wrap)
    {
      WrappedStep(lines, n, maxChars, wrap);
      wrapped := wrapped + Chunks(lines[n], maxChars, wrap);
    }
    assert lines[..|lines|] == lines;
    wrapped := wrapped + [Line("", false)];
  }

  lemma {:induction false} WrappedLinesFit(lines: seq<Line>, maxChars: nat, wrap: Wrap)
    requires WrapContract(wrap) && maxChars > 0
    ensures forall line <- Wrapped(lines, maxChars, wrap) :: |line.text| <= maxChars
  {
    if lines != [] {
      WrappedLinesFit(lines[..|lines| - 1], maxChars, wrap);
    }
  }

  // ---- rows -------------------------------------------------------------------------------

  type Blocks = map<string, Block>

  function BlockMap(blocks: seq<Block>): Blocks {
    if blocks == [] then map[] else BlockMap(blocks[..|blocks| - 1])[blocks[|blocks| - 1].id := blocks[|blocks| - 1]]
  }

  function SectionLines(ids: seq<string>, blocks: Blocks, maxChars: nat, wrap: Wrap): seq<Line>
    requires forall id <- ids :: id in blocks
  {
    if ids == [] then []
    else
      var lines := if blocks[ids[0]].visible then BlockLines(blocks[ids[0]], maxChars, wrap) else [];
      lines + SectionLines(ids[1..], blocks, maxChars, wrap)
  }

  predicate Resolves(row: Row, blocks: Blocks) {
    forall column <- row.columns :: forall id <- column.sectionIds :: id in blocks
  }

  function RowLines(row: Row, blocks: Blocks, maxChars: nat, wrap: Wrap): LaidRow
    requires Resolves(row, blocks)
  {
    seq(|row.columns|, i requires 0 <= i < |row.columns| =>
      Cell(row.columns[i].width, SectionLines(row.columns[i].sectionIds, blocks, maxChars, wrap)))
  }

  // ---- geometry of a page -----------------------------------------------------------------

  function Margin(style: Style): int {
    (style.margin * 72.0).Floor
  }

  function LineHeight(style: Style): int {
    var h := (style.spacing * 11.0).Floor;
    if h > 9 then h else 9
  }

  function PageWidth(paper: Paper): int {
    if paper == Letter then 612 else 595
  }

  function PageHeight(paper: Paper): int {
    if paper == Letter then 792 else 842
  }

  function AvailableLines(style: Style, paper: Paper): int {
    var n := (PageHeight(paper) - 2 * Margin(style)) / LineHeight(style);
    if n > 1 then n else 1
  }

  function WrapWidth(style: Style, paper: Paper): int {
    var n := (PageWidth(paper) - 2 * Margin(style)) / 5;
    if n > 12 then n else 12
  }

  lemma QuotientBounds(space: int, h: int, low: int, high: int)
    requires h > 0 && low * h <= space < high * h
    ensures low <= space / h < high && (space / h) * h <= space
  {
    var n, r := space / h, space % h;
    assert space == n * h + r && 0 <= r < h;
    BelowOne(low - n, h);
    BelowOne(n - high + 1, h);
  }

  lemma BelowOne(x: int, h: int)
    requires h > 0 && x * h < h
    ensures x < 1
  {
  }

  lemma ValidStyleBounds(style: Style, paper: Paper)
    requires 0.25 <= style.margin <= 1.25 && 0.5 <= style.spacing <= 2.0
    ensures 18 <= Margin(style) <= 90 && 9 <= LineHeight(style) <= 22
    ensures 83 <= WrapWidth(style, paper) <= 115
    ensures 27 <= AvailableLines(style, paper) <= 89
    ensures AvailableLines(style, paper) * LineHeight(style) <= PageHeight(paper) - 2 * Margin(style)
  {
    var m, h := Margin(style), LineHeight(style);
    assert 18.0 <= style.margin * 72.0 <= 90.0;
    assert 5.0 <= style.spacing * 11.0 <= 22.0;
    var space := PageHeight(paper) - 2 * m;
    assert 612 <= space <= 806;
    assert 27 * h <= 27 * 22 < space && space < 90 * 9 <= 90 * h;
    QuotientBounds(space, h, 27, 90);
  }

  /** The margin is the most whole points within the style's inches, the line height the most within eleven
      times the spacing but at least nine; a page takes as many lines, and a line as many characters of five
      points, as fit between the margins, and no more. */
  lemma GeometryIs(style: Style, paper: Paper)
    requires 0.25 <= style.margin <= 1.25 && 0.5 <= style.spacing <= 2.0
    ensures Margin(style) as real <= style.margin * 72.0 < (Margin(style) + 1) as real
    ensures LineHeight(style) >= 9 && style.spacing * 11.0 < (LineHeight(style) + 1) as real
    ensures LineHeight(style) > 9 ==> LineHeight(style) as real <= style.spacing * 11.0
    ensures forall n: int :: n <= AvailableLines(style, paper) <==>
              n * LineHeight(style) <= (if paper.Letter? then 792 else 842) - 2 * Margin(style)
    ensures forall n: int :: n <= WrapWidth(style, paper) <==>
              5 * n <= (if paper.Letter? then 612 else 595) - 2 * Margin(style)
  {
    ValidStyleBounds(style, paper);
    var h, space := LineHeight(style), PageHeight(paper) - 2 * Margin(style);
    QuotientBounds(space, h, 27, 90);
    forall n: int
      ensures n <= space / h <==> n * h <= space
    {
      MostThatFit(n, space, h);
    }
  }

  lemma MostThatFit(n: int, space: int, h: int)
    requires h > 0
    ensures n <= space / h <==> n * h <= space
  {
    var q, r := space / h, space % h;
    assert space == q * h + r && 0 <= r < h;
    if n * h <= space {
      assert (n - q) * h == n * h - q * h;
      BelowOne(n - q, h);
    } else if n <= q {
      assert (q - n) * h == q * h - n * h;
      BelowOne(n - q, h);
    }
  }

  // ---- pagination -------------------------------------------------------------------------

  function Max(a: int, b: int): int {
    if a > b then a else b
  }

  function Min(a: int, b: int): int {
    if a < b then a else b
  }

  /** `max((len(lines) ...), default=1)` */
  function Height(row: LaidRow): nat {
    if row == [] then 1 else if |row| == 1 then |row[0].lines| else Max(|row[0].lines|, Height(row[1..]))
  }

  function Prefix<T>(s: seq<T>, n: nat): seq<T> {
    if n < |s| then s[..n] else s
  }

  function Suffix<T>(s: seq<T>, n: nat): seq<T> {
    if n < |s| then s[n..] else []
  }

  function TakeLines(row: LaidRow, n: nat): LaidRow {
    seq(|row|, i requires 0 <= i < |row| => Cell(row[i].width, Prefix(row[i].lines, n)))
  }

  function DropLines(row: LaidRow, n: nat): LaidRow {
    seq(|row|, i requires 0 <= i < |row| => Cell(row[i].width, Suffix(row[i].lines, n)))
  }

  predicate IsSpent(row: LaidRow) {
    forall cell <- row :: cell.lines == []
  }

  function Cost(pending: seq<LaidRow>): nat {
    if pending == [] then 0 else Height(pending[0]) + 1 + Cost(pending[1..])
  }

  lemma {:induction false} HeightBounds(row: LaidRow)
    ensures forall i :: 0 <= i < |row| ==> |row[i].lines| <= Height(row)
    ensures row != [] ==> exists i :: 0 <= i < |row| && |row[i].lines| == Height(row)
    ensures row == [] ==> Height(row) == 1
  {
    if |row| == 1 {
      assert |row[0].lines| == Height(row);
    } else if |row| > 1 {
      HeightBounds(row[1..]);
      assert forall i :: 1 <= i < |row| ==> row[i] == row[1..][i - 1];
      if |row[0].lines| != Height(row) {
        var k :| 0 <= k < |row[1..]| && |row[1..][k].lines| == Height(row[1..]);
        assert |row[k + 1].lines| == Height(row);
      }
    }
  }

  /** The height the drawing step will recompute for a fragment is what the paginator took. */
  lemma FragmentHeight(row: LaidRow, n: nat)
    requires row != [] && n <= Height(row)
    ensures Height(TakeLines(row, n)) == n
    ensures Height(DropLines(row, n)) == Height(row) - n
    ensures IsSpent(DropLines(row, n)) <==> n == Height(row)
  {
    var a, b := TakeLines(row, n), DropLines(row, n);
    HeightBounds(row);
    HeightBounds(a);
    HeightBounds(b);
    var i :| 0 <= i < |row| && |row[i].lines| == Height(row);
    assert |a[i].lines| == n && |b[i].lines| == Height(row) - n;
    if n < Height(row) {
      assert b[i] in b && b[i].lines != [];
    }
  }

  /** One turn of the loop: what goes on the page, what is left of the row. */
  function Capacity(current: PageRows, remaining: int): nat {
    Max(1, remaining - if current != [] then 1 else 0)
  }

  function Taken(row: LaidRow, current: PageRows, remaining: int): nat {
    Min(Height(row), Capacity(current, remaining))
  }

  function After(pending: seq<LaidRow>, take: nat): seq<LaidRow>
    requires pending != []
  {
    var rest := DropLines(pending[0], take);
    if IsSpent(rest) then pending[1..] else [rest] + pending[1..]
  }

  lemma LoopProgress(pending: seq<LaidRow>, current: PageRows, remaining: int)
    requires pending != []
    ensures Cost(After(pending, Taken(pending[0], current, remaining))) < Cost(pending)
    ensures pending[0] != [] ==>
      var take := Taken(pending[0], current, remaining);
      Cost(After(pending, take)) == Cost(pending) - take - if take == Height(pending[0]) then 1 else 0
  {
    var row, take := pending[0], Taken(pending[0], current, remaining);
    var rest := DropLines(row, take);
    if row != [] {
      FragmentHeight(row, take);
    }
    if !IsSpent(rest) {
      assert ([rest] + pending[1..])[1..] == pending[1..];
      HeightBounds(row);
    }
  }

  predicate ClosesPage(pending: seq<LaidRow>, current: PageRows, remaining: int)
    requires pending != []
  {
    var take := Taken(pending[0], current, remaining);
    remaining - (take + 1) <= 0 || (After(pending, take) != [] && take < Height(pending[0]))
  }

  /** The loop over one source page, as a recursion on what is pending. */
  function Paginate(pending: seq<LaidRow>, current: PageRows, remaining: int, available: int): seq<PageRows>
    decreases Cost(pending)
  {
    if pending == [] then if current != [] then [current] else []
    else
      var take := Taken(pending[0], current, remaining);
      var page := current + [TakeLines(pending[0], take)];
      LoopProgress(pending, current, remaining);
      if ClosesPage(pending, current, remaining) then [page] + Paginate(After(pending, take), [], available, available)
      else Paginate(After(pending, take), page, remaining - (take + 1), available)
  }

  function LaidRows(rows: seq<Row>, blocks: Blocks, maxChars: nat, wrap: Wrap): seq<LaidRow>
    requires forall row <- rows :: Resolves(row, blocks)
  {
    seq(|rows|, i requires 0 <= i < |rows| => RowLines(rows[i], blocks, maxChars, wrap))
  }

  function PaginatePages(pages: seq<Page>, blocks: Blocks, maxChars: nat, wrap: Wrap, available: int): seq<PageRows>
    requires forall page <- pages :: forall row <- page.rows :: Resolves(row, blocks)
  {
    if pages == [] then []
    else
      var last := LaidRows(pages[|pages| - 1].rows, blocks, maxChars, wrap);
      PaginatePages(pages[..|pages| - 1], blocks, maxChars, wrap, available) + Paginate(last, [], available, available)
  }

  predicate AllResolve(doc: Document) {
    forall page <- doc.pages :: forall row <- page.rows :: Resolves(row, BlockMap(doc.blocks))
  }

  function Pages(doc: Document, wrap: Wrap): seq<PageRows>
    requires AllResolve(doc)
  {
    PaginatePages(doc.pages, BlockMap(doc.blocks), WrapWidth(doc.style, doc.paper), wrap,
                  AvailableLines(doc.style, doc.paper))
  }

  /** The inner loop, with its mutated lists and counter. */
  method PaginateSourcePage(rows: seq<LaidRow>, available: int) returns (pages: seq<PageRows>)
    ensures pages == Paginate(rows, [], available, available)
  {
    pages := [];
    var pending, current, remaining := rows, [], available;
    while pending != []
      invariant Paginate(rows, [], available, available) == pages + Paginate(pending, current, remaining, available)
      decreases Cost(pending)
    {
      var row := pending[0];
      var rowHeight := Height(row);
      var capacity := Max(1, remaining - if current != [] then 1 else 0);
      var take := Min(rowHeight, capacity);
      LoopProgress(pending, current, remaining);
      ghost var before, was, left := pending, current, remaining;
      current := current + [TakeLines(row, take)];
      pending := [DropLines(row, take)] + pending[1..];
      remaining := remaining - (take + 1);
      if IsSpent(pending[0]) {
        pending := pending[1..];
      }
      assert pending == After(before, take);
      if remaining <= 0 || (pending != [] && take < rowHeight) {
        assert ClosesPage(before, was, left);
        pages := pages + [current];
        current, remaining := [], available;
      }
    }
    if current != [] {
      pages := pages + [current];
    }
  }

  method PaginateRows(doc: Document, wrap: Wrap) returns (pages: seq<PageRows>)
    requires AllResolve(doc)
    ensures pages == if Pages(doc, wrap) == [] then [[]] else Pages(doc, wrap)
    ensures pages != [] && (Pages(doc, wrap) != [] ==> pages == Pages(doc, wrap))
  {
    var available := AvailableLines(doc.style, doc.paper);
    var blocks := BlockMap(doc.blocks);
    var maxChars := WrapWidth(doc.style, doc.paper);
    pages := [];
    for n := 0 to |doc.pages|
      invariant pages == PaginatePages(doc.pages[..n], blocks, maxChars, wrap, available)
    {
      assert doc.pages[..n + 1][..n] == doc.pages[..n];
      assert doc.pages[n] in doc.pages;
      var rows := LaidRows(doc.pages[n].rows, blocks, maxChars, wrap);
      var out := PaginateSourcePage(rows, available);
      pages := pages + out;
    }
    assert doc.pages[..|doc.pages|] == doc.pages;
    if pages == [] {
      pages := [[]];
    }
  }
}
