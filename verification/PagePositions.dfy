/** Where the lines of a page end up: read off its commands, not computed by the functions that place them. */
module PagePositions {
  import opened Options
  import opened ResumeDocument
  import opened Paginator
  import opened PaginatorTheorems
  import opened PageStream

  /** Where the next text goes, and in which colour if one has been chosen. */
  datatype Pen = Pen(x: int, y: int, rgb: Option<Rgb>)

  datatype Spot = Spot(pen: Pen, text: string)

  function PenAfter(c: Command, pen: Pen): Pen {
    match c
    case Place(x, y) => pen.(x := x, y := y)
    case Colour(rgb) => pen.(rgb := Some(rgb))
    case _ => pen
  }

  function PenAtEnd(commands: seq<Command>, pen: Pen): Pen {
    if commands == [] then pen else PenAtEnd(commands[1..], PenAfter(commands[0], pen))
  }

  /** The texts that are shown, in order, each with the pen as the commands before it left it. */
  function Spots(commands: seq<Command>, pen: Pen): seq<Spot> {
    if commands == [] then []
    else
      (if commands[0].Show? then [Spot(pen, commands[0].text)] else []) +
      Spots(commands[1..], PenAfter(commands[0], pen))
  }

  lemma {:induction false} SpotsConcat(a: seq<Command>, b: seq<Command>, pen: Pen)
    ensures Spots(a + b, pen) == Spots(a, pen) + Spots(b, PenAtEnd(a, pen))
  {
    if a == [] {
      assert a + b == b;
    } else {
      assert (a + b)[1..] == a[1..] + b;
      SpotsConcat(a[1..], b, PenAfter(a[0], pen));
    }
  }

  lemma OneSpot(c: Command, pen: Pen)
    ensures Spots([c], pen) == if c.Show? then [Spot(pen, c.text)] else []
    ensures PenAtEnd([c], pen) == PenAfter(c, pen)
  {
    assert [c][1..] == [];
  }

  lemma LineSpot(line: Line, x: int, y: int, f: Frame, pen: Pen)
    ensures Spots(LineCommands(line, x, y, f), pen) ==
            [Spot(Pen(x, y, Some(if line.heading then f.accent else f.body)), Prefix(line.text, 180))]
  {
    hide Spots, PenAtEnd;
    var c := LineCommands(line, x, y, f);
    assert c == ([c[0]] + [c[1]]) + [c[2]];
    OneSpot(c[0], pen);
    SpotsConcat([c[0]], [c[1]], pen);
    OneSpot(c[1], PenAfter(c[0], pen));
    PenConcat([c[0]], [c[1]], pen);
    SpotsConcat([c[0]] + [c[1]], [c[2]], pen);
    OneSpot(c[2], Pen(x, y, Some(c[0].rgb)));
  }

  lemma {:induction false} PenConcat(a: seq<Command>, b: seq<Command>, pen: Pen)
    ensures PenAtEnd(a + b, pen) == PenAtEnd(b, PenAtEnd(a, pen))
  {
    if a == [] {
      assert a + b == b;
    } else {
      assert (a + b)[1..] == a[1..] + b;
      PenConcat(a[1..], b, PenAfter(a[0], pen));
    }
  }

  // ---- the grid ---------------------------------------------------------------------------

  /** Line `j` of a cell stands `j` line heights below the top, in its colour. */
  predicate CellPlaced(spots: seq<Spot>, lines: seq<Line>, x: int, top: int, f: Frame) {
    && |spots| == |lines|
    && forall j :: 0 <= j < |lines| ==>
         && spots[j].pen == Pen(x, top - j * f.lineHeight, Some(if lines[j].heading then f.accent else f.body))
         && spots[j].text == if |lines[j].text| <= 180 then lines[j].text else lines[j].text[..180]
  }

  /** Column 0 starts at the margin, and every other one where the one before it ends. */
  function LeftOf(row: LaidRow, k: nat, f: Frame): int
    requires k <= |row|
  {
    if k == 0 then f.margin
    else
      var width := ((f.width - 2 * f.margin) as real * row[k - 1].width).Floor;
      LeftOf(row, k - 1, f) + if width < 40 then 40 else width
  }

  predicate RowPlaced(cells: seq<seq<Spot>>, row: LaidRow, top: int, f: Frame) {
    && |cells| == |row|
    && forall k :: 0 <= k < |row| ==> CellPlaced(cells[k], row[k].lines, LeftOf(row, k, f), top, f)
  }

  /** Row 0 starts at the top margin, and every other one a line below the longest cell of the one before it. */
  function TopOf(rows: PageRows, r: nat, f: Frame): int
    requires r <= |rows|
  {
    if r == 0 then f.height - f.margin else TopOf(rows, r - 1, f) - (Height(rows[r - 1]) + 1) * f.lineHeight
  }

  ghost predicate PagePlaced(grid: seq<seq<seq<Spot>>>, rows: PageRows, f: Frame) {
    |grid| == |rows| && forall r :: 0 <= r < |rows| ==> RowPlaced(grid[r], rows[r], TopOf(rows, r, f), f)
  }

  lemma {:induction false} CellShown(lines: seq<Line>, x: int, top: int, f: Frame, pen: Pen)
    ensures CellPlaced(Spots(CellCommands(lines, x, top, f), pen), lines, x, top, f)
  {
    hide Spots, PenAtEnd, LineCommands, CellPlaced;
    if lines == [] {
      NothingShown(x, top, f, pen);
    } else {
      var n := |lines| - 1;
      CellShown(lines[..n], x, top, f, pen);
      var before := CellCommands(lines[..n], x, top, f);
      SpotsConcat(before, LineCommands(lines[n], x, top - n * f.lineHeight, f), pen);
      LineSpot(lines[n], x, top - n * f.lineHeight, f, PenAtEnd(before, pen));
      OneMoreLine(Spots(before, pen), lines, x, top, f);
    }
  }

  lemma NothingShown(x: int, top: int, f: Frame, pen: Pen)
    ensures CellPlaced(Spots([], pen), [], x, top, f)
  {
  }

  lemma OneMoreLine(spots: seq<Spot>, lines: seq<Line>, x: int, top: int, f: Frame)
    requires lines != [] && CellPlaced(spots, lines[..|lines| - 1], x, top, f)
    ensures var n := |lines| - 1;
      CellPlaced(spots + [Spot(Pen(x, top - n * f.lineHeight, Some(if lines[n].heading then f.accent else f.body)),
                               Prefix(lines[n].text, 180))], lines, x, top, f)
  {
  }

  lemma {:induction false} LeftIs(row: LaidRow, k: nat, f: Frame)
    requires k <= |row|
    ensures ColumnX(row[..k], f) == LeftOf(row, k, f)
  {
    if k > 0 {
      LeftIs(row, k - 1, f);
      assert row[..k][..k - 1] == row[..k - 1];
    }
  }

  lemma {:induction false} LeftStays(row: LaidRow, n: nat, k: nat, f: Frame)
    requires k <= n <= |row|
    ensures LeftOf(row[..n], k, f) == LeftOf(row, k, f)
  {
    if k > 0 {
      LeftStays(row, n, k - 1, f);
    }
  }

  lemma {:induction false} RowShown(row: LaidRow, top: int, f: Frame, pen: Pen) returns (cells: seq<seq<Spot>>)
    ensures Spots(RowCommands(row, top, f), pen) == Flatten(cells) && RowPlaced(cells, row, top, f)
  {
    if row == [] {
      cells := [];
    } else {
      var n := |row| - 1;
      var earlier := RowShown(row[..n], top, f, pen);
      var before, x := RowCommands(row[..n], top, f), ColumnX(row[..n], f);
      var last := Spots(CellCommands(row[n].lines, x, top, f), PenAtEnd(before, pen));
      cells := earlier + [last];
      hide Spots, PenAtEnd, CellCommands, LeftOf;
      SpotsConcat(before, CellCommands(row[n].lines, x, top, f), pen);
      CellShown(row[n].lines, x, top, f, PenAtEnd(before, pen));
      LeftIs(row, n, f);
      hide CellPlaced;
      FlattenMore(earlier, last);
      forall k | 0 <= k < n
        ensures CellPlaced(cells[k], row[k].lines, LeftOf(row, k, f), top, f)
      {
        LeftStays(row, n, k, f);
      }
    }
  }

  lemma {:induction false} TopIs(rows: PageRows, r: nat, f: Frame)
    requires r <= |rows|
    ensures RowTop(rows[..r], f) == TopOf(rows, r, f)
  {
    if r == 0 {
      assert rows[..0] == [];
    } else {
      TopIs(rows, r - 1, f);
      PageStep(rows, r - 1, f);
      assert (Height(rows[r - 1]) + 1) * f.lineHeight == Height(rows[r - 1]) * f.lineHeight + f.lineHeight;
    }
  }

  lemma {:induction false} TopStays(rows: PageRows, n: nat, r: nat, f: Frame)
    requires r <= n <= |rows|
    ensures TopOf(rows[..n], r, f) == TopOf(rows, r, f)
  {
    if r > 0 {
      TopStays(rows, n, r - 1, f);
    }
  }

  /** Every line of every cell of every row, in order, stands in its column and as far below the top margin
      as the rows above it and the lines above it take. */
  lemma {:induction false} PageShown(rows: PageRows, f: Frame, pen: Pen) returns (grid: seq<seq<seq<Spot>>>)
    ensures Spots(PageCommands(rows, f), pen) == Flatten(Flatten(grid)) && PagePlaced(grid, rows, f)
  {
    if rows == [] {
      grid := [];
    } else {
      var n := |rows| - 1;
      var earlier := PageShown(rows[..n], f, pen);
      var before, top := PageCommands(rows[..n], f), RowTop(rows[..n], f);
      hide Spots, PenAtEnd, RowCommands, TopOf, RowPlaced;
      var last := RowShown(rows[n], top, f, PenAtEnd(before, pen));
      grid := earlier + [last];
      SpotsConcat(before, RowCommands(rows[n], top, f), pen);
      TopIs(rows, n, f);
      FlattenMore(earlier, last);
      FlattenConcat(Flatten(earlier), last);
      forall r | 0 <= r < n
        ensures RowPlaced(grid[r], rows[r], TopOf(rows, r, f), f)
      {
        TopStays(rows, n, r, f);
      }
    }
  }

  // ---- no two lines in one place ----------------------------------------------------------

  ghost predicate Apart(spots: seq<Spot>) {
    forall a, b :: 0 <= a < b < |spots| ==>
      spots[a].pen.x != spots[b].pen.x || spots[a].pen.y != spots[b].pen.y
  }

  /** Columns from `left` up to `right`, baselines from `low` up to `high`. */
  ghost predicate Inside(spots: seq<Spot>, left: int, right: int, low: int, high: int) {
    forall a :: 0 <= a < |spots| ==> left <= spots[a].pen.x < right && low <= spots[a].pen.y < high
  }

  lemma SideBySide(a: seq<Spot>, b: seq<Spot>, left: int, middle: int, right: int, low: int, high: int)
    requires Apart(a) && Apart(b) && left <= middle <= right
    requires Inside(a, left, middle, low, high) && Inside(b, middle, right, low, high)
    ensures Apart(a + b) && Inside(a + b, left, right, low, high)
  {
  }

  lemma OneBelowTheOther(a: seq<Spot>, b: seq<Spot>, left: int, right: int, low: int, middle: int, high: int)
    requires Apart(a) && Apart(b) && low <= middle <= high
    requires Inside(a, left, right, middle, high) && Inside(b, left, right, low, middle)
    ensures Apart(a + b) && Inside(a + b, left, right, low, high)
  {
  }

  lemma StepsDiffer(i: nat, j: nat, h: int)
    requires i < j && h > 0
    ensures i * h + h <= j * h
  {
    Nonnegative(j - i - 1, h);
    assert j * h == i * h + h + (j - i - 1) * h;
  }

  lemma CellApart(spots: seq<Spot>, lines: seq<Line>, x: int, right: int, top: int, f: Frame, height: nat)
    requires CellPlaced(spots, lines, x, top, f) && f.lineHeight > 0 && x < right && |lines| <= height
    ensures Apart(spots) && Inside(spots, x, right, top + 1 - height * f.lineHeight, top + 1)
  {
    forall a, b | 0 <= a < b < |spots|
      ensures spots[a].pen.y != spots[b].pen.y
    {
      StepsDiffer(a, b, f.lineHeight);
    }
    forall a | 0 <= a < |spots|
      ensures top + 1 - height * f.lineHeight <= spots[a].pen.y <= top
    {
      StepsDiffer(a, height, f.lineHeight);
      Nonnegative(a, f.lineHeight);
    }
  }

  lemma {:induction false} CellsApart(cells: seq<seq<Spot>>, row: LaidRow, n: nat, top: int, f: Frame)
    requires RowPlaced(cells, row, top, f) && f.lineHeight > 0 && n <= |row|
    ensures f.margin <= LeftOf(row, n, f)
    ensures Apart(Flatten(cells[..n]))
    ensures Inside(Flatten(cells[..n]), f.margin, LeftOf(row, n, f), top + 1 - Height(row) * f.lineHeight, top + 1)
  {
    hide CellPlaced, Apart, Inside, Height, Flatten;
    var low := top + 1 - Height(row) * f.lineHeight;
    if n == 0 {
      assert cells[..0] == [];
      NothingApart(f.margin, f.margin, low, top + 1);
    } else {
      CellsApart(cells, row, n - 1, top, f);
      assert CellPlaced(cells[n - 1], row[n - 1].lines, LeftOf(row, n - 1, f), top, f);
      HeightBounds(row);
      CellApart(cells[n - 1], row[n - 1].lines, LeftOf(row, n - 1, f), LeftOf(row, n, f), top, f, Height(row));
      assert cells[..n] == cells[..n - 1] + [cells[n - 1]];
      FlattenMore(cells[..n - 1], cells[n - 1]);
      SideBySide(Flatten(cells[..n - 1]), cells[n - 1], f.margin, LeftOf(row, n - 1, f), LeftOf(row, n, f),
                 low, top + 1);
    }
  }

  lemma NothingApart(left: int, right: int, low: int, high: int)
    ensures Flatten<Spot>([]) == [] && Apart([]) && Inside([], left, right, low, high)
  {
  }

  lemma Widened(spots: seq<Spot>, left: int, right: int, wider: int, low: int, lower: int, high: int)
    requires Inside(spots, left, right, low, high) && right <= wider && lower <= low
    ensures Inside(spots, left, wider, lower, high)
  {
  }

  lemma {:induction false} RowsApart(grid: seq<seq<seq<Spot>>>, rows: PageRows, n: nat, f: Frame) returns (right: int)
    requires PagePlaced(grid, rows, f) && f.lineHeight > 0 && n <= |rows|
    ensures Apart(Flatten(Flatten(grid[..n])))
    ensures TopOf(rows, n, f) <= f.height - f.margin
    ensures Inside(Flatten(Flatten(grid[..n])), f.margin, right, TopOf(rows, n, f) + 1, f.height - f.margin + 1)
  {
    hide RowPlaced, Apart, Inside, Height, Flatten, LeftOf;
    if n == 0 {
      right := f.margin;
      assert grid[..0] == [];
      NothingFlattened();
      NothingApart(f.margin, f.margin, TopOf(rows, 0, f) + 1, f.height - f.margin + 1);
    } else {
      var before := RowsApart(grid, rows, n - 1, f);
      var row, top, h := rows[n - 1], TopOf(rows, n - 1, f), Height(rows[n - 1]);
      assert RowPlaced(grid[n - 1], row, top, f);
      PlacedCells(grid[n - 1], row, top, f);
      CellsApart(grid[n - 1], row, |row|, top, f);
      assert grid[n - 1][..|row|] == grid[n - 1];
      right := Max(before, LeftOf(row, |row|, f));
      var a, b := Flatten(Flatten(grid[..n - 1])), Flatten(grid[n - 1]);
      var low := TopOf(rows, n, f) + 1;
      assert (h + 1) * f.lineHeight == h * f.lineHeight + f.lineHeight;
      Nonnegative(h, f.lineHeight);
      Widened(a, f.margin, before, right, top + 1, top + 1, f.height - f.margin + 1);
      Widened(b, f.margin, LeftOf(row, |row|, f), right, top + 1 - h * f.lineHeight, low, top + 1);
      OneBelowTheOther(a, b, f.margin, right, low, top + 1, f.height - f.margin + 1);
      assert grid[..n] == grid[..n - 1] + [grid[n - 1]];
      FlattenMore(grid[..n - 1], grid[n - 1]);
      FlattenConcat(Flatten(grid[..n - 1]), grid[n - 1]);
    }
  }

  lemma PlacedCells(cells: seq<seq<Spot>>, row: LaidRow, top: int, f: Frame)
    requires RowPlaced(cells, row, top, f)
    ensures |cells| == |row|
  {
  }

  lemma NothingFlattened()
    ensures Flatten<seq<Spot>>([]) == []
  {
  }

  /** No two lines of a page are shown in the same place. */
  lemma LinesApart(rows: PageRows, f: Frame, pen: Pen)
    requires f.lineHeight > 0
    ensures Apart(Spots(PageCommands(rows, f), pen))
  {
    hide Apart, Spots, PageCommands, PagePlaced;
    var grid := PageShown(rows, f, pen);
    PlacedRows(grid, rows, f);
    var right := RowsApart(grid, rows, |rows|, f);
    assert grid[..|rows|] == grid;
  }

  lemma PlacedRows(grid: seq<seq<seq<Spot>>>, rows: PageRows, f: Frame)
    requires PagePlaced(grid, rows, f)
    ensures |grid| == |rows|
  {
  }

  // ---- on the page ------------------------------------------------------------------------

  /** Between the top and the bottom margin, and not left of the left one. */
  predicate IsOnPage(s: Spot, f: Frame) {
    f.margin <= s.pen.x && f.margin + f.lineHeight <= s.pen.y <= f.height - f.margin
  }

  predicate AllOnPage(spots: seq<Spot>, f: Frame) {
    forall j :: 0 <= j < |spots| ==> IsOnPage(spots[j], f)
  }

  lemma {:induction false} LeftAtLeast(row: LaidRow, i: nat, k: nat, f: Frame)
    requires i <= k <= |row|
    ensures f.margin <= LeftOf(row, i, f) && LeftOf(row, i, f) + 40 * (k - i) <= LeftOf(row, k, f)
    decreases k
  {
    if i < k {
      LeftAtLeast(row, i, k - 1, f);
    } else if i > 0 {
      LeftAtLeast(row, i - 1, k - 1, f);
    }
  }

  lemma CellOnPage(spots: seq<Spot>, lines: seq<Line>, x: int, top: int, f: Frame)
    requires CellPlaced(spots, lines, x, top, f) && f.lineHeight > 0 && f.margin <= x && top <= f.height - f.margin
    requires f.margin + f.lineHeight <= top - (|lines| - 1) * f.lineHeight
    ensures AllOnPage(spots, f)
  {
    forall j | 0 <= j < |spots|
      ensures IsOnPage(spots[j], f)
    {
      Nonnegative(j, f.lineHeight);
      Shorter(j, |lines| - 1, f.lineHeight);
    }
  }

  /** Every line of a page between its margins. */
  ghost predicate LinesOnPage(grid: seq<seq<seq<Spot>>>, rows: PageRows, f: Frame) {
    forall r, k :: 0 <= r < |rows| && 0 <= k < |rows[r]| ==>
      |grid| == |rows| && |grid[r]| == |rows[r]| && AllOnPage(grid[r][k], f)
  }

  /** On a page that fits, every line stands between the margins. */
  lemma GridOnPage(grid: seq<seq<seq<Spot>>>, rows: PageRows, f: Frame, available: int)
    requires PagePlaced(grid, rows, f) && Fits(rows, available)
    requires f.lineHeight > 0 && available * f.lineHeight <= f.height - 2 * f.margin
    ensures LinesOnPage(grid, rows, f)
  {
    forall r, k | 0 <= r < |rows| && 0 <= k < |rows[r]|
      ensures |grid| == |rows| && |grid[r]| == |rows[r]| && AllOnPage(grid[r][k], f)
    {
      hide CellPlaced, Fits, Height, Used, AllOnPage, LeftOf, TopOf;
      assert RowPlaced(grid[r], rows[r], TopOf(rows, r, f), f);
      assert CellPlaced(grid[r][k], rows[r][k].lines, LeftOf(rows[r], k, f), TopOf(rows, r, f), f);
      LeftAtLeast(rows[r], 0, k, f);
      LeftAtLeast(rows[r], k, k, f);
      RowLow(rows, r, k, f, available);
      CellOnPage(grid[r][k], rows[r][k].lines, LeftOf(rows[r], k, f), TopOf(rows, r, f), f);
    }
  }

  lemma RowLow(rows: PageRows, r: nat, k: nat, f: Frame, available: int)
    requires r < |rows| && k < |rows[r]| && Fits(rows, available)
    requires f.lineHeight > 0 && available * f.lineHeight <= f.height - 2 * f.margin
    ensures TopOf(rows, r, f) <= f.height - f.margin
    ensures f.margin + f.lineHeight <= TopOf(rows, r, f) - (|rows[r][k].lines| - 1) * f.lineHeight
  {
    TopIs(rows, r, f);
    HeightBounds(rows[r]);
    assert Used(rows[..r]) + Height(rows[r]) <= available;
    hide Fits, Height, TopOf, Used;
    LowestLine(Used(rows[..r]), |rows[r][k].lines|, available, f.lineHeight, f.height - 2 * f.margin);
  }

  // ---- the right edge ---------------------------------------------------------------------

  /** Nothing bounds a line on the right: it begins on the page exactly if its column does, after the columns
      before it have taken their widths, and those are at least 40. */
  lemma BeginsOnPageIff(grid: seq<seq<seq<Spot>>>, rows: PageRows, f: Frame, r: nat, k: nat, j: nat)
    requires PagePlaced(grid, rows, f) && r < |rows| && k < |rows[r]| && j < |rows[r][k].lines|
    ensures r < |grid| && k < |grid[r]| && j < |grid[r][k]|
    ensures grid[r][k][j].pen.x < f.width <==> LeftOf(rows[r], k, f) < f.width
  {
    assert RowPlaced(grid[r], rows[r], TopOf(rows, r, f), f);
    assert CellPlaced(grid[r][k], rows[r][k].lines, LeftOf(rows[r], k, f), TopOf(rows, r, f), f);
  }

  /** So all columns of a row begin on the page if and only if the last one does. */
  lemma ColumnsBeginOnPageIff(row: LaidRow, f: Frame)
    requires row != []
    ensures (forall k: nat :: k < |row| ==> LeftOf(row, k, f) < f.width) <==> LeftOf(row, |row| - 1, f) < f.width
  {
    forall k: nat | k < |row|
      ensures LeftOf(row, k, f) <= LeftOf(row, |row| - 1, f)
    {
      LeftAtLeast(row, k, |row| - 1, f);
    }
  }

  /** The bounds of the schema on the columns of a row. */
  predicate WidthsAccepted(columns: seq<Column>) {
    && 1 <= |columns| <= 4
    && (forall c <- columns :: 0.0 < c.minWidth <= c.width <= c.maxWidth <= 1.0)
    && -0.02 <= TotalWidth(columns) - 1.0 <= 0.02
  }

  function TotalWidth(columns: seq<Column>): real {
    if columns == [] then 0.0 else columns[0].width + TotalWidth(columns[1..])
  }

  function Narrowed(widths: seq<real>): seq<Column> {
    seq(|widths|, i requires 0 <= i < |widths| => Column("", widths[i], 0.005, 1.0, []))
  }

  const UNEVEN: seq<real> := [0.97, 0.01, 0.01, 0.01]

  /** It happens: widths that the schema accepts put the fourth column of an A4 page with the smallest margin
      45 points past its right edge. */
  lemma NarrowColumnsLeaveThePage(row: LaidRow, f: Frame)
    requires |row| == 4 && (forall k :: 0 <= k < 4 ==> row[k].width == UNEVEN[k]) && f.width == 595 && f.margin == 18
    ensures WidthsAccepted(Narrowed(UNEVEN)) && LeftOf(row, 3, f) == 640
  {
    var c := Narrowed(UNEVEN);
    assert c[1..][0] == c[1] && c[1..][1..][0] == c[2] && c[1..][1..][1..][0] == c[3] && c[1..][1..][1..][1..] == [];
    assert TotalWidth(c[1..][1..][1..]) == 0.01;
    assert TotalWidth(c[1..][1..]) == 0.02;
    assert TotalWidth(c[1..]) == 0.03;
    assert (559.0 * 0.97).Floor == 542 && (559.0 * 0.01).Floor == 5;
    assert LeftOf(row, 1, f) == 560 && LeftOf(row, 2, f) == 600;
  }
}
