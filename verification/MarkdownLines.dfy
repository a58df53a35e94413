/**
 What each Markdown line is, said by taking the line apart, and what a whole
 body says, told from the lines and not from the lines of its translation.
 */
module MarkdownLines {
  import opened Options
  import opened PythonText
  import opened TextShapes
  import opened InlineLatex
  import opened MarkdownLatex
  import opened LatexDocument

  /** No mark that starts another kind of line is a digit. */
  ghost predicate DigitContract(isDigit: char -> bool) {
    forall c :: isDigit(c) ==> c != '.' && c != '#' && c != '-' && c != '*'
  }

  predicate IsNumber(s: string, isDigit: char -> bool) {
    s != "" && forall c <- s :: isDigit(c)
  }

  /** What an item of a list starts with. */
  predicate IsMarker(marker: string, kind: Kind, isDigit: char -> bool) {
    if kind.Itemize? then marker == "-" || marker == "*"
    else marker != "" && marker[|marker| - 1] == '.' && IsNumber(marker[..|marker| - 1], isDigit)
  }

  predicate IsItemAs(line: string, kind: Kind, text: string, marker: string, gap: string, isDigit: char -> bool) {
    IsMarker(marker, kind, isDigit) && IsGap(gap) && StartsWithText(text) && line == marker + gap + text
  }

  /** A marker, white space, and a text that does not begin with white space. */
  ghost predicate IsItem(line: string, kind: Kind, text: string, isDigit: char -> bool) {
    exists marker, gap :: IsItemAs(line, kind, text, marker, gap, isDigit)
  }

  /** A stripped line, by the form it has. */
  ghost predicate Reads(line: string, b: Block, isDigit: char -> bool) {
    match b
    case Blank => line == ""
    case Heading(level, text) => 1 <= level <= 6 && IsHeadingOf(line, level, text)
    case Listed(kind, text) => IsItem(line, kind, text, isDigit)
    case Paragraph(text) =>
      && text == line != ""
      && (forall level: nat, t: string :: !(1 <= level <= 6 && IsHeadingOf(line, level, t)))
      && (forall kind: Kind, t: string :: !IsItem(line, kind, t, isDigit))
  }

  lemma BulletIff(s: string, text: string, isDigit: char -> bool)
    ensures BulletText(s) == Some(text) <==> IsItem(s, Itemize, text, isDigit)
  {
    if BulletText(s) == Some(text) {
      var gap := LStripIs(s[1..]);
      assert s[1..][0] == s[1] && gap != "";
      assert s == s[..1] + gap + text && (s[..1] == "-" || s[..1] == "*");
      assert IsItemAs(s, Itemize, text, s[..1], gap, isDigit);
    }
    if IsItem(s, Itemize, text, isDigit) {
      var marker, gap :| IsItemAs(s, Itemize, text, marker, gap, isDigit);
      assert s == marker + (gap + text) && s[1..] == gap + text && gap[0] in gap;
      LStripOf(gap, text);
    }
  }

  lemma {:induction false} LeadingDigitsOf(d: string, rest: string, isDigit: char -> bool)
    requires (forall c <- d :: isDigit(c)) && (rest == "" || !isDigit(rest[0]))
    ensures LeadingDigits(d + rest, isDigit) == |d|
  {
    if d == "" {
      assert d + rest == rest;
    } else {
      assert d[0] in d && (d + rest)[1..] == d[1..] + rest;
      LeadingDigitsOf(d[1..], rest, isDigit);
    }
  }

  lemma {:induction false} LeadingDigitsAre(s: string, isDigit: char -> bool)
    ensures forall c <- s[..LeadingDigits(s, isDigit)] :: isDigit(c)
  {
    if s != "" && isDigit(s[0]) {
      LeadingDigitsAre(s[1..], isDigit);
      var n := LeadingDigits(s[1..], isDigit);
      assert s[..n + 1] == [s[0]] + s[1..][..n];
    }
  }

  lemma NumberedIs(s: string, text: string, isDigit: char -> bool)
    requires NumberedText(s, isDigit) == Some(text)
    ensures IsItem(s, Enumerate, text, isDigit)
  {
    var n := LeadingDigits(s, isDigit);
    LeadingDigitsAre(s, isDigit);
    var gap := LStripIs(s[n + 1..]);
    assert s[n + 1..][0] == s[n + 1] && gap != "";
    var marker := s[..n + 1];
    assert marker[..n] == s[..n] && marker[n] == '.';
    assert s == marker + s[n + 1..] && s == marker + gap + text;
    hide IsSpace;
    assert IsItemAs(s, Enumerate, text, marker, gap, isDigit);
  }

  lemma ItemIsNumbered(s: string, text: string, isDigit: char -> bool)
    requires DigitContract(isDigit) && IsItem(s, Enumerate, text, isDigit)
    ensures NumberedText(s, isDigit) == Some(text)
  {
    var marker, gap :| IsItemAs(s, Enumerate, text, marker, gap, isDigit);
    var n := |marker| - 1;
    var digits := marker[..n];
    assert s == digits + ("." + gap + text) && s[n] == '.' && s[n + 1..] == gap + text && gap[0] in gap;
    LeadingDigitsOf(digits, "." + gap + text, isDigit);
    assert s[n + 1] == gap[0];
    LStripOf(gap, text);
  }

  /** How a line starts tells what it is. */
  lemma FirstCharacters(line: string, isDigit: char -> bool)
    requires DigitContract(isDigit)
    ensures forall level: nat, t: string :: level >= 1 && IsHeadingOf(line, level, t) ==> line != "" && line[0] == '#'
    ensures forall t: string :: IsItem(line, Itemize, t, isDigit) ==> line != "" && (line[0] == '-' || line[0] == '*')
    ensures forall t: string :: IsItem(line, Enumerate, t, isDigit) ==> line != "" && isDigit(line[0])
  {
    forall level: nat, t: string | level >= 1 && IsHeadingOf(line, level, t)
      ensures line != "" && line[0] == '#'
    {
      var gap :| IsGap(gap) && line == Hashes(level) + gap + t;
      assert Hashes(level)[0] in Hashes(level);
    }
    forall t: string | IsItem(line, Enumerate, t, isDigit)
      ensures line != "" && isDigit(line[0])
    {
      var marker, gap :| IsItemAs(line, Enumerate, t, marker, gap, isDigit);
      var digits := marker[..|marker| - 1];
      assert line[0] == digits[0] && digits[0] in digits;
    }
  }

  /** A stripped line is translated as what it is, and as nothing else: hashes, white space and a text are a
      heading of that level; a dash or an asterisk, white space and a text an item; digits, a dot, white
      space and a text a numbered item; and whatever else is not blank a paragraph of itself. */
  lemma BlockOfIff(line: string, b: Block, isDigit: char -> bool)
    requires DigitContract(isDigit)
    ensures BlockOf(line, isDigit) == b <==> Reads(line, b, isDigit)
  {
    BlockReads(line, isDigit);
    if Reads(line, b, isDigit) {
      ReadsOneWay(line, b, BlockOf(line, isDigit), isDigit);
    }
  }

  lemma BlockReads(line: string, isDigit: char -> bool)
    requires DigitContract(isDigit)
    ensures Reads(line, BlockOf(line, isDigit), isDigit)
  {
    hide IsItem, IsHeadingOf, BulletText, NumberedText, PythonText.Heading;
    var heading, bullet, numbered := PythonText.Heading(line, 6), BulletText(line), NumberedText(line, isDigit);
    if heading.Some? {
      HeadingIff(line, 6, heading.value.0, heading.value.1);
    }
    if bullet.Some? {
      BulletIff(line, bullet.value, isDigit);
    }
    if numbered.Some? {
      NumberedIs(line, numbered.value, isDigit);
    }
    forall level: nat, t: string
      ensures heading.None? ==> !(1 <= level <= 6 && IsHeadingOf(line, level, t))
    {
      HeadingIff(line, 6, level, t);
    }
    forall kind: Kind, t: string
      ensures bullet.None? && numbered.None? ==> !IsItem(line, kind, t, isDigit)
    {
      BulletIff(line, t, isDigit);
      if kind.Enumerate? && IsItem(line, kind, t, isDigit) {
        ItemIsNumbered(line, t, isDigit);
      }
    }
  }

  /** No line has two forms. */
  lemma ReadsOneWay(line: string, a: Block, b: Block, isDigit: char -> bool)
    requires DigitContract(isDigit) && Reads(line, a, isDigit) && Reads(line, b, isDigit)
    ensures a == b
  {
    hide IsItem, IsHeadingOf;
    FirstCharacters(line, isDigit);
    if a.Heading? && b.Heading? {
      HeadingIff(line, 6, a.level, a.text);
      HeadingIff(line, 6, b.level, b.text);
    } else if a.Listed? && b.Listed? {
      SameItem(line, a.kind, a.text, b.kind, b.text, isDigit);
    } else if a.Listed? {
      ItemStart(line, a.kind, a.text, isDigit);
    } else if b.Listed? {
      ItemStart(line, b.kind, b.text, isDigit);
    }
  }

  lemma ItemStart(line: string, kind: Kind, text: string, isDigit: char -> bool)
    requires DigitContract(isDigit) && IsItem(line, kind, text, isDigit)
    ensures line != "" && line[0] != '#'
  {
    hide IsItem;
    FirstCharacters(line, isDigit);
    assert kind == Itemize || kind == Enumerate;
  }

  lemma SameItem(line: string, k: Kind, t: string, l: Kind, u: string, isDigit: char -> bool)
    requires DigitContract(isDigit) && IsItem(line, k, t, isDigit) && IsItem(line, l, u, isDigit)
    ensures k == l && t == u
  {
    hide IsItem;
    FirstCharacters(line, isDigit);
    if k.Itemize? {
      BulletIff(line, t, isDigit);
      BulletIff(line, u, isDigit);
    } else {
      ItemIsNumbered(line, t, isDigit);
      ItemIsNumbered(line, u, isDigit);
    }
  }

  // ---- the whole body ---------------------------------------------------------------------

  function ListOf(b: Block): Option<Kind> {
    if b.Listed? then Some(b.kind) else None
  }

  function Turn(before: Option<Kind>, after: Option<Kind>): seq<seq<Token>> {
    if before == after then []
    else
      (if before.Some? then [[Structural(Closes(before.value))]] else []) +
      (if after.Some? then [[Structural(Opens(after.value))]] else [])
  }

  /** Headings below the third level are written as headings of the third. */
  function Spoken(b: Block): seq<Token> {
    match b
    case Blank => []
    case Heading(level, text) => [Structural(Heads(if level <= 2 then level else 3))] + AsLetters(Letters(text))
    case Listed(_, text) => [Structural(Item)] + AsLetters(Letters(text))
    case Paragraph(text) => AsLetters(Letters(text))
  }

  /** Line by line, after a line of list `before`: where the list changes one is closed and the other opened,
      and at the end none is left open. */
  function Meaning(blocks: seq<Block>, before: Option<Kind>): seq<seq<Token>> {
    if blocks == [] then Turn(before, None)
    else Turn(before, ListOf(blocks[0])) + [Spoken(blocks[0])] + Meaning(blocks[1..], ListOf(blocks[0]))
  }

  function Lined(lines: seq<seq<Token>>): seq<Token> {
    if lines == [] then [] else if |lines| == 1 then lines[0] else lines[0] + [Letter('\n')] + Lined(lines[1..])
  }

  function TextIn(b: Block): string {
    if b.Blank? then "" else b.text
  }

  function MarksIn(blocks: seq<Block>): nat {
    if blocks == [] then 0 else Delimiters(TextIn(blocks[0])) + MarksIn(blocks[1..])
  }

  function SaysEach(lines: seq<Line>): (said: seq<seq<Token>>)
    ensures |said| == |lines|
  {
    seq(|lines|, i requires 0 <= i < |lines| => Says(lines[i]))
  }

  lemma {:induction false} AllSayIs(lines: seq<Line>)
    ensures AllSay(lines) == Lined(SaysEach(lines))
  {
    hide Says;
    if |lines| > 1 {
      AllSayIs(lines[1..]);
      assert SaysEach(lines)[1..] == SaysEach(lines[1..]);
    }
  }

  lemma SaysEachMore(a: seq<Line>, b: seq<Line>)
    ensures SaysEach(a + b) == SaysEach(a) + SaysEach(b)
  {
    hide Says;
  }

  lemma {:induction false} AllMarkedMore(a: seq<Line>, b: seq<Line>)
    ensures AllMarked(a + b) == AllMarked(a) + AllMarked(b)
  {
    if a == [] {
      assert a + b == b;
    } else {
      assert (a + b)[1..] == a[1..] + b;
      AllMarkedMore(a[1..], b);
    }
  }

  predicate Numbers(b: Block) {
    b.Heading? ==> b.level >= 1
  }

  lemma LineSays(b: Block)
    requires Numbers(b)
    ensures SaysEach([LineOf(b)]) == [Spoken(b)] && AllMarked([LineOf(b)]) == Delimiters(TextIn(b))
  {
    assert AsLetters(Letters("")) == [] && Delimiters("") == 0;
    OneMarked(LineOf(b));
    assert Says(LineOf(b)) == Spoken(b);
  }

  lemma OneMarked(line: Line)
    ensures AllMarked([line]) == Marked(line) && SaysEach([line]) == [Says(line)]
  {
    assert [line][1..] == [];
  }

  lemma TurnSays(mode: Option<Kind>, kind: Kind)
    ensures SaysEach(Closing(mode)) == Turn(mode, None) && AllMarked(Closing(mode)) == 0
    ensures mode != Some(kind) ==> SaysEach(Closing(mode) + [Begin(kind)]) == Turn(mode, Some(kind))
    ensures AllMarked(Closing(mode) + [Begin(kind)]) == 0
  {
    OneMarked(Begin(kind));
    if mode.Some? {
      OneMarked(End(mode.value));
    }
    SaysEachMore(Closing(mode), [Begin(kind)]);
    AllMarkedMore(Closing(mode), [Begin(kind)]);
  }

  /** One round of the loop says what its line is. */
  lemma RoundSays(b: Block, mode: Option<Kind>)
    requires Numbers(b)
    ensures SaysEach(Written(b, mode)) == Turn(mode, ListOf(b)) + [Spoken(b)]
    ensures AllMarked(Written(b, mode)) == Delimiters(TextIn(b))
  {
    hide SaysEach, AllMarked, Spoken, TextIn, LineOf, Numbers;
    LineSays(b);
    TurnSays(mode, if b.Listed? then b.kind else Itemize);
    if !b.Listed? {
      SaysEachMore(Closing(mode), [LineOf(b)]);
      AllMarkedMore(Closing(mode), [LineOf(b)]);
    } else if mode != Some(b.kind) {
      var head := Closing(mode) + [Begin(b.kind)];
      assert Closing(mode) + [Begin(b.kind), LineOf(b)] == head + [LineOf(b)];
      SaysEachMore(head, [LineOf(b)]);
      AllMarkedMore(head, [LineOf(b)]);
    } else {
      assert [] + [Spoken(b)] == [Spoken(b)];
    }
  }

  lemma {:induction false} RestSays(blocks: seq<Block>, mode: Option<Kind>)
    requires forall b <- blocks :: Numbers(b)
    ensures SaysEach(Rest(blocks, mode)) == Meaning(blocks, mode) && AllMarked(Rest(blocks, mode)) == MarksIn(blocks)
  {
    hide Rest, Written, Says, Spoken, Turn, Marked, TextIn, Numbers;
    if blocks == [] {
      EndSays(mode);
    } else {
      var b, later := blocks[0], blocks[1..];
      assert b in blocks && forall o <- later :: o in blocks;
      assert blocks == [b] + later;
      RestStep(b, later, mode);
      RoundSays(b, mode);
      RestSays(later, ModeAfter(b));
      SaysEachMore(Written(b, mode), Rest(later, ModeAfter(b)));
      AllMarkedMore(Written(b, mode), Rest(later, ModeAfter(b)));
    }
  }

  lemma EndSays(mode: Option<Kind>)
    ensures SaysEach(Rest([], mode)) == Turn(mode, None) && AllMarked(Rest([], mode)) == 0
  {
    RestCloses([], mode);
    assert Rest([], None) == [];
    assert Closing(mode) + [] == Closing(mode);
    assert |Closing(mode)| == 1 ==> Closing(mode)[1..] == [];
  }

  /** For every Markdown text, whatever its lines are: the body is well formed to its end, and a reader finds
      in it, line by line, the headings with their levels, the items in environments of their kinds and the
      paragraphs that the lines are, with every asterisk and underscore accounted for. */
  lemma BodySaysItsLines(content: string, isDigit: char -> bool, blocks: seq<Block>)
    requires DigitContract(isDigit) && |blocks| == |SplitLines(content)|
    requires forall i :: 0 <= i < |blocks| ==> Reads(Strip(SplitLines(content)[i]), blocks[i], isDigit)
    ensures ReadBody(Body(content, isDigit), Place(0, None)) ==
            Some(BodyReading(Place(0, None), Lined(Meaning(blocks, None)), MarksIn(blocks)))
  {
    hide Reads, ReadBody, Body, Meaning, Lined, Grouped, AllSay, Numbers;
    var lines := SplitLines(content);
    forall i | 0 <= i < |blocks|
      ensures Blocks(lines, isDigit)[i] == blocks[i] && Numbers(blocks[i])
    {
      BlockAt(lines, isDigit, i);
      BlockOfIff(Strip(lines[i]), blocks[i], isDigit);
      LevelsCount(Strip(lines[i]), blocks[i], isDigit);
    }
    assert Blocks(lines, isDigit) == blocks;
    BodyReadsBack(content, isDigit);
    RestSays(blocks, None);
    RestIsGrouped(blocks);
    AllSayIs(Grouped(blocks));
  }

  lemma RestIsGrouped(blocks: seq<Block>)
    ensures Rest(blocks, None) == Grouped(blocks)
  {
  }

  lemma LevelsCount(line: string, b: Block, isDigit: char -> bool)
    requires Reads(line, b, isDigit)
    ensures Numbers(b)
  {
  }
}
