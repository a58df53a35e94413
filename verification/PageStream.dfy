/** Drawing one output page, and where its baselines and texts end up. */
module PageStream {
  import opened Strings
  import opened ResumeDocument
  import opened Paginator
  import opened PaginatorTheorems

  type Rgb = (real, real, real)

  datatype Command =
    | BeginText
    | Font(resource: string, size: real)
    | Colour(rgb: Rgb)
    | Place(x: int, y: int)
    | Show(text: string)
    | EndText

  datatype Frame = Frame(margin: int, lineHeight: int, width: int, height: int, body: Rgb, accent: Rgb)

  predicate IsHex(c: char) {
    '0' <= c <= '9' || 'a' <= c <= 'f' || 'A' <= c <= 'F'
  }

  function HexDigit(c: char): int
    requires IsHex(c)
  {
    if c <= '9' then c as int - '0' as int
    else if c <= 'F' then c as int - 'A' as int + 10
    else c as int - 'a' as int + 10
  }

  function ToRgb(value: string): Rgb {
    if |value| == 7 && value[0] == '#' && forall i :: 1 <= i < 7 ==> IsHex(value[i]) then
      ((HexDigit(value[1]) * 16 + HexDigit(value[2])) as real / 255.0,
       (HexDigit(value[3]) * 16 + HexDigit(value[4])) as real / 255.0,
       (HexDigit(value[5]) * 16 + HexDigit(value[6])) as real / 255.0)
    else (0.12, 0.16, 0.22)
  }

  const HEX := "0123456789abcdef"

  /** The colour of two hexadecimal digits each for red, green and blue. */
  lemma ColourReads(red: nat, green: nat, blue: nat)
    requires red < 256 && green < 256 && blue < 256
    ensures ToRgb("#" + [HEX[red / 16], HEX[red % 16], HEX[green / 16], HEX[green % 16]]
                  + [HEX[blue / 16], HEX[blue % 16]])
         == (red as real / 255.0, green as real / 255.0, blue as real / 255.0)
  {
    HexReads(red / 16);
    HexReads(red % 16);
    HexReads(green / 16);
    HexReads(green % 16);
    HexReads(blue / 16);
    HexReads(blue % 16);
    hide HexDigit, IsHex;
  }

  lemma HexReads(d: nat)
    requires d < 16
    ensures IsHex(HEX[d]) && HexDigit(HEX[d]) == d
  {
  }

  function FontName(family: string): string {
    if family == "georgia" then "Times-Roman" else "Helvetica"
  }

  /** `font.replace("-", "")` */
  function FontResource(family: string): string {
    Replace(FontName(family), '-', "")
  }

  /** Of the four families only Georgia is set in Times; resources are named without the hyphen. */
  lemma FontsAre(family: string)
    ensures FontName(family) == if family == "georgia" then "Times-Roman" else "Helvetica"
    ensures FontResource(family) == if family == "georgia" then "TimesRoman" else "Helvetica"
  {
    WithoutHyphen();
    hide Replace;
  }

  lemma WithoutHyphen()
    ensures Replace("Times-Roman", '-', "") == "TimesRoman" && Replace("Helvetica", '-', "") == "Helvetica"
  {
    hide Replace;
    assert "Times-Roman" == "Times" + ("-" + "Roman");
    ReplaceConcat("Times", "-" + "Roman", '-', "");
    ReplaceConcat("-", "Roman", '-', "");
    OneHyphen();
    NoOccurrence("Times", '-', "");
    NoOccurrence("Roman", '-', "");
    NoOccurrence("Helvetica", '-', "");
    assert "Times" + ("" + "Roman") == "TimesRoman";
  }

  lemma OneHyphen()
    ensures Replace("-", '-', "") == ""
  {
    assert "-"[1..] == "";
  }

  function FrameOf(doc: Document): Frame {
    Frame(Margin(doc.style), LineHeight(doc.style), PageWidth(doc.paper), PageHeight(doc.paper),
          ToRgb(doc.style.textColor), ToRgb(doc.style.accentColor))
  }

  // ---- positions in closed form -----------------------------------------------------------

  function LineCommands(line: Line, x: int, y: int, f: Frame): seq<Command> {
    [Colour(if line.heading then f.accent else f.body), Place(x, y), Show(Prefix(line.text, 180))]
  }

  function CellCommands(lines: seq<Line>, x: int, top: int, f: Frame): seq<Command> {
    if lines == [] then []
    else
      var n := |lines| - 1;
      CellCommands(lines[..n], x, top, f) + LineCommands(lines[n], x, top - n * f.lineHeight, f)
  }

  function ColumnWidth(cell: Cell, f: Frame): int {
    Max(40, ((f.width - 2 * f.margin) as real * cell.width).Floor)
  }

  function ColumnX(row: LaidRow, f: Frame): int {
    if row == [] then f.margin else ColumnX(row[..|row| - 1], f) + ColumnWidth(row[|row| - 1], f)
  }

  function RowCommands(row: LaidRow, top: int, f: Frame): seq<Command> {
    if row == [] then []
    else
      var n := |row| - 1;
      RowCommands(row[..n], top, f) + CellCommands(row[n].lines, ColumnX(row[..n], f), top, f)
  }

  /** A row starts as many line heights below the top margin as the rows above it use. */
  function RowTop(above: PageRows, f: Frame): int {
    f.height - f.margin - Used(above) * f.lineHeight
  }

  function PageCommands(rows: PageRows, f: Frame): seq<Command> {
    if rows == [] then []
    else
      var n := |rows| - 1;
      PageCommands(rows[..n], f) + RowCommands(rows[n], RowTop(rows[..n], f), f)
  }

  // ---- the three nested loops -------------------------------------------------------------

  method DrawCell(lines: seq<Line>, x: int, top: int, f: Frame) returns (commands: seq<Command>)
    ensures commands == CellCommands(lines, x, top, f)
  {
    commands := [];
    var y := top;
    for n := 0 to |lines|
      invariant commands == CellCommands(lines[..n], x, top, f)
      invariant y == top - n * f.lineHeight
    {
      assert lines[..n + 1][..n] == lines[..n];
      commands := commands + [Colour(if lines[n].heading then f.accent else f.body)];
      commands := commands + [Place(x, y), Show(Prefix(lines[n].text, 180))];
      y := y - f.lineHeight;
    }
    assert lines[..|lines|] == lines;
  }

  method DrawRow(row: LaidRow, top: int, f: Frame) returns (commands: seq<Command>)
    ensures commands == RowCommands(row, top, f)
  {
    commands := [];
    var x := f.margin;
    for n := 0 to |row|
      invariant commands == RowCommands(row[..n], top, f)
      invariant x == ColumnX(row[..n], f)
    {
      assert row[..n + 1][..n] == row[..n];
      var cell := DrawCell(row[n].lines, x, top, f);
      commands := commands + cell;
      x := x + ColumnWidth(row[n], f);
    }
    assert row[..|row|] == row;
  }

  lemma PageStep(rows: PageRows, n: nat, f: Frame)
    requires n < |rows|
    ensures PageCommands(rows[..n + 1], f) == PageCommands(rows[..n], f) + RowCommands(rows[n], RowTop(rows[..n], f), f)
    ensures RowTop(rows[..n + 1], f) == RowTop(rows[..n], f) - (Height(rows[n]) * f.lineHeight + f.lineHeight)
  {
    assert rows[..n + 1][..n] == rows[..n];
    assert (Used(rows[..n]) + Height(rows[n]) + 1) * f.lineHeight
        == Used(rows[..n]) * f.lineHeight + Height(rows[n]) * f.lineHeight + f.lineHeight;
  }

  method DrawPage(rows: PageRows, f: Frame) returns (commands: seq<Command>)
    ensures commands == PageCommands(rows, f)
  {
    commands := [];
    var currentY := f.height - f.margin;
    for n := 0 to |rows|
      invariant commands == PageCommands(rows[..n], f)
      invariant currentY == RowTop(rows[..n], f)
    {
      PageStep(rows, n, f);
      var row := DrawRow(rows[n], currentY, f);
      commands := commands + row;
      currentY := currentY - (Height(rows[n]) * f.lineHeight + f.lineHeight);
    }
    assert rows[..|rows|] == rows;
  }

  function StreamCommands(doc: Document, rows: PageRows): seq<Command> {
    [BeginText] + [Font(FontResource(doc.style.fontFamily), doc.style.fontSize)]
    + PageCommands(rows, FrameOf(doc)) + [EndText]
  }

  method DrawStream(doc: Document, rows: PageRows) returns (commands: seq<Command>)
    ensures commands == StreamCommands(doc, rows)
  {
    commands := [BeginText, Font(FontResource(doc.style.fontFamily), doc.style.fontSize)];
    var drawn := DrawPage(rows, FrameOf(doc));
    commands := commands + drawn + [EndText];
  }

  // ---- every baseline is on the page ------------------------------------------------------

  predicate Within(commands: seq<Command>, low: int, high: int) {
    forall c <- commands :: c.Place? ==> low <= c.y <= high
  }

  lemma {:induction false} CellWithin(lines: seq<Line>, x: int, top: int, f: Frame, low: int)
    requires f.lineHeight > 0 && low <= top - (|lines| - 1) * f.lineHeight
    ensures Within(CellCommands(lines, x, top, f), low, top)
  {
    if lines != [] {
      var n := |lines| - 1;
      assert (n - 1) * f.lineHeight + f.lineHeight == n * f.lineHeight;
      CellWithin(lines[..n], x, top, f, low);
      Nonnegative(n, f.lineHeight);
    }
  }

  lemma Nonnegative(a: int, b: int)
    requires a >= 0 && b >= 0
    ensures a * b >= 0
  {
  }

  lemma Shorter(a: int, b: int, h: int)
    requires a <= b && h >= 0
    ensures a * h <= b * h
  {
    Nonnegative(b - a, h);
  }

  lemma {:induction false} RowWithin(row: LaidRow, top: int, f: Frame, low: int)
    requires f.lineHeight > 0
    requires forall cell <- row :: low <= top - (|cell.lines| - 1) * f.lineHeight
    ensures Within(RowCommands(row, top, f), low, top)
  {
    if row != [] {
      var n := |row| - 1;
      assert forall cell <- row[..n] :: cell in row;
      RowWithin(row[..n], top, f, low);
      assert row[n] in row;
      CellWithin(row[n].lines, ColumnX(row[..n], f), top, f, low);
    }
  }

  lemma LowestLine(used: nat, n: nat, available: int, h: int, space: int)
    requires h > 0 && used + n <= available && available * h <= space
    ensures 0 <= used * h && h <= space - used * h - (n - 1) * h
  {
    Shorter(used + n, available, h);
    assert (used + n) * h == used * h + (n - 1) * h + h;
    Nonnegative(used, h);
  }

  lemma FitsBefore(rows: PageRows, n: nat, available: int)
    requires Fits(rows, available) && n < |rows|
    ensures Fits(rows[..n], available) && Used(rows[..n]) + Height(rows[n]) <= available
  {
    forall k | 0 <= k < n ensures Used(rows[..n][..k]) + Height(rows[..n][k]) <= available {
      assert rows[..n][..k] == rows[..k] && rows[..n][k] == rows[k];
    }
  }

  /** A page that fits is drawn between the bottom margin, plus one line, and the top margin. */
  lemma {:induction false} PageWithin(rows: PageRows, f: Frame, available: int)
    requires Fits(rows, available) && f.lineHeight > 0 && available * f.lineHeight <= f.height - 2 * f.margin
    ensures Within(PageCommands(rows, f), f.margin + f.lineHeight, f.height - f.margin)
  {
    hide Fits, Used, Height, RowCommands;
    if rows != [] {
      var n := |rows| - 1;
      FitsBefore(rows, n, available);
      PageWithin(rows[..n], f, available);
      RowFits(rows[n], Used(rows[..n]), f, available);
    }
  }

  lemma RowFits(row: LaidRow, used: nat, f: Frame, available: int)
    requires used + Height(row) <= available
    requires f.lineHeight > 0 && available * f.lineHeight <= f.height - 2 * f.margin
    ensures Within(RowCommands(row, f.height - f.margin - used * f.lineHeight, f), f.margin + f.lineHeight,
                   f.height - f.margin)
  {
    var h, top := f.lineHeight, f.height - f.margin - used * f.lineHeight;
    HeightBounds(row);
    Nonnegative(used, h);
    hide Height;
    forall cell <- row ensures f.margin + h <= top - (|cell.lines| - 1) * h {
      LowestLine(used, |cell.lines|, available, h, f.height - 2 * f.margin);
    }
    RowWithin(row, top, f, f.margin + h);
  }

  // ---- the texts drawn --------------------------------------------------------------------

  function Texts(commands: seq<Command>): seq<string> {
    if commands == [] then []
    else
      var n := |commands| - 1;
      Texts(commands[..n]) + if commands[n].Show? then [commands[n].text] else []
  }

  function LineTexts(lines: seq<Line>): seq<string> {
    if lines == [] then [] else LineTexts(lines[..|lines| - 1]) + [lines[|lines| - 1].text]
  }

  function RowTexts(row: LaidRow): seq<string> {
    if row == [] then [] else RowTexts(row[..|row| - 1]) + LineTexts(row[|row| - 1].lines)
  }

  function PageTexts(rows: PageRows): seq<string> {
    if rows == [] then [] else PageTexts(rows[..|rows| - 1]) + RowTexts(rows[|rows| - 1])
  }

  lemma {:induction false} TextsConcat(a: seq<Command>, b: seq<Command>)
    ensures Texts(a + b) == Texts(a) + Texts(b)
  {
    if b == [] {
      assert a + b == a;
    } else {
      var n := |b| - 1;
      assert (a + b)[..|a + b| - 1] == a + b[..n];
      TextsConcat(a, b[..n]);
    }
  }

  predicate Narrow(lines: seq<Line>) {
    forall line <- lines :: |line.text| <= 180
  }

  lemma {:induction false} CellTexts(lines: seq<Line>, x: int, top: int, f: Frame)
    requires Narrow(lines)
    ensures Texts(CellCommands(lines, x, top, f)) == LineTexts(lines)
  {
    hide Texts, LineCommands;
    if lines == [] {
      NoTexts();
    } else {
      var n := |lines| - 1;
      var before, y := lines[..n], top - n * f.lineHeight;
      assert Narrow(before) by {
        assert forall line <- before :: line in lines;
      }
      CellTexts(before, x, top, f);
      TextsConcat(CellCommands(before, x, top, f), LineCommands(lines[n], x, y, f));
      OneText(lines[n], x, y, f);
      assert lines[n] in lines;
    }
  }

  lemma NoTexts()
    ensures Texts([]) == []
  {
  }

  lemma SingleText(c: Command)
    ensures Texts([c]) == if c.Show? then [c.text] else []
  {
    assert [c][..0] == [];
  }

  lemma OneText(line: Line, x: int, y: int, f: Frame)
    ensures Texts(LineCommands(line, x, y, f)) == [Prefix(line.text, 180)]
  {
    var c := LineCommands(line, x, y, f);
    assert c == ([c[0]] + [c[1]]) + [c[2]];
    TextsConcat([c[0]] + [c[1]], [c[2]]);
    TextsConcat([c[0]], [c[1]]);
    SingleText(c[0]);
    SingleText(c[1]);
    SingleText(c[2]);
  }

  lemma {:induction false} RowTextsDrawn(row: LaidRow, top: int, f: Frame)
    requires forall cell <- row :: Narrow(cell.lines)
    ensures Texts(RowCommands(row, top, f)) == RowTexts(row)
  {
    if row != [] {
      var n := |row| - 1;
      assert forall cell <- row[..n] :: cell in row;
      RowTextsDrawn(row[..n], top, f);
      assert row[n] in row;
      CellTexts(row[n].lines, ColumnX(row[..n], f), top, f);
      TextsConcat(RowCommands(row[..n], top, f), CellCommands(row[n].lines, ColumnX(row[..n], f), top, f));
    }
  }

  /** The texts drawn are the page's lines, each once and in order, and none is cut short. */
  lemma {:induction false} PageTextsDrawn(rows: PageRows, f: Frame)
    requires forall row <- rows :: forall cell <- row :: Narrow(cell.lines)
    ensures Texts(PageCommands(rows, f)) == PageTexts(rows)
  {
    if rows != [] {
      var n := |rows| - 1;
      assert forall row <- rows[..n] :: row in rows;
      PageTextsDrawn(rows[..n], f);
      assert rows[n] in rows;
      RowTextsDrawn(rows[n], RowTop(rows[..n], f), f);
      TextsConcat(PageCommands(rows[..n], f), RowCommands(rows[n], RowTop(rows[..n], f), f));
    }
  }
}
