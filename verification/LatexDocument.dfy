/**
 A reader of whole LaTeX bodies. It fails on a list environment opened inside
 another or closed by the wrong name, on an item outside one, on a heading
 inside one, on a brace too many and on a special character left bare.
 */
module LatexDocument {
  import opened Options
  import opened PythonText
  import opened InlineLatex
  import opened MarkdownLatex

  datatype Mark = Opens(kind: Kind) | Closes(kind: Kind) | Item | Heads(level: nat)

  datatype Token = Letter(c: char) | Structural(mark: Mark) | Label(text: string)

  /** Brace depth and open list environment. */
  datatype Place = Place(depth: nat, list: Option<Kind>)

  function Spelling(mark: Mark): string {
    match mark
    case Opens(Itemize) => "\\begin{itemize}"
    case Opens(Enumerate) => "\\begin{enumerate}"
    case Closes(Itemize) => "\\end{itemize}"
    case Closes(Enumerate) => "\\end{enumerate}"
    case Item => "\\item "
    case Heads(level) =>
      if level == 1 then "\\section*{" else if level == 2 then "\\subsection*{" else "\\subsubsection*{"
  }

  /** Second characters that no command inside a line has. */
  predicate IsStructural(s: string) {
    |s| >= 2 && s[0] == '\\' && s[1] in "beis"
  }

  /** The one mark that `s` can start with. */
  function Candidate(s: string): Mark
    requires |s| >= 6
  {
    if s[1] == 'i' then Item
    else if s[1] == 'e' then Closes(if s[5] == 'i' then Itemize else Enumerate)
    else if s[1] == 'b' then Opens(if |s| > 7 && s[7] == 'i' then Itemize else Enumerate)
    else Heads(if s[2] == 'e' then 1 else if s[5] == 'e' then 2 else 3)
  }

  function MarkAt(s: string): (m: Option<Mark>)
    ensures m.Some? ==> Spelling(m.value) <= s
  {
    if |s| >= 6 && Spelling(Candidate(s)) <= s then Some(Candidate(s)) else None
  }

  function After(p: Place, mark: Mark): Option<Place> {
    if p.depth > 0 then None
    else match mark
      case Opens(kind) => if p.list.None? then Some(Place(0, Some(kind))) else None
      case Closes(kind) => if p.list == Some(kind) then Some(Place(0, None)) else None
      case Item => if p.list.Some? then Some(p) else None
      case Heads(_) => if p.list.None? then Some(Place(1, None)) else None
  }

  function AsLetters(text: string): (t: seq<Token>)
    ensures |t| == |text|
  {
    seq(|text|, i requires 0 <= i < |text| => Letter(text[i]))
  }

  datatype Progress = Progress(length: nat, place: Place, tokens: seq<Token>, marks: nat)

  /** Where reading ends, what it reads, and how many Markdown delimiters that accounts for. */
  datatype BodyReading = BodyReading(place: Place, tokens: seq<Token>, marks: nat)

  function FirstProgress(s: string, p: Place): (r: Option<Progress>)
    requires s != ""
    ensures r.Some? ==> 0 < r.value.length <= |s|
  {
    if IsStructural(s) then
      var m := MarkAt(s);
      if m.None? || After(p, m.value).None? then None
      else Some(Progress(|Spelling(m.value)|, After(p, m.value).value, [Structural(m.value)], 0))
    else
      var m := FirstMove(s, true);
      if m.None? || p.depth + m.value.up < 0 then None
      else Some(Progress(m.value.length, p.(depth := p.depth + m.value.up), AsLetters(m.value.text), m.value.marks))
  }

  function Before(tokens: seq<Token>, marks: nat, r: Option<BodyReading>): Option<BodyReading> {
    if r.None? then None else Some(BodyReading(r.value.place, tokens + r.value.tokens, marks + r.value.marks))
  }

  function ReadBody(s: string, p: Place): Option<BodyReading>
    decreases |s|
  {
    if s == "" then Some(BodyReading(p, [], 0))
    else
      var r := FirstProgress(s, p);
      if r.None? then None else Before(r.value.tokens, r.value.marks, ReadBody(s[r.value.length..], r.value.place))
  }

  // ---- what a body says -------------------------------------------------------------------

  /** Headings deeper than three levels are written as level three. */
  function Says(line: Line): seq<Token> {
    match line
    case Begin(kind) => [Structural(Opens(kind))]
    case End(kind) => [Structural(Closes(kind))]
    case Entry(text) => [Structural(Item)] + AsLetters(Letters(text))
    case Section(level, text) =>
      [Structural(Heads(if level == 1 || level == 2 then level else 3))] + AsLetters(Letters(text))
    case Plain(text) => AsLetters(Letters(text))
  }

  function AllSay(lines: seq<Line>): seq<Token> {
    if lines == [] then []
    else if |lines| == 1 then Says(lines[0])
    else Says(lines[0]) + [Letter('\n')] + AllSay(lines[1..])
  }

  function Marked(line: Line): nat {
    match line
    case Begin(_) => 0
    case End(_) => 0
    case Entry(text) => Delimiters(text)
    case Section(_, text) => Delimiters(text)
    case Plain(text) => Delimiters(text)
  }

  function AllMarked(lines: seq<Line>): nat {
    if lines == [] then 0 else Marked(lines[0]) + AllMarked(lines[1..])
  }

  // ---- the reader on concatenations -------------------------------------------------------

  lemma BeforeTwice(a: seq<Token>, m: nat, b: seq<Token>, n: nat, r: Option<BodyReading>)
    ensures Before(a, m, Before(b, n, r)) == Before(a + b, m + n, r)
  {
    if r.Some? {
      assert a + (b + r.value.tokens) == (a + b) + r.value.tokens;
    }
  }

  lemma BeforeNothing(r: Option<BodyReading>)
    ensures Before([], 0, r) == r
  {
    if r.Some? {
      assert [] + r.value.tokens == r.value.tokens;
    }
  }

  lemma MarkUnaffected(a: string, b: string)
    requires MarkAt(a).Some?
    ensures MarkAt(a + b) == MarkAt(a)
  {
    var c := Spelling(MarkAt(a).value);
    assert (a + b)[..|c|] == a[..|c|];
  }

  lemma ProgressUnaffected(a: string, b: string, p: Place)
    requires a != "" && FirstProgress(a, p).Some?
    ensures FirstProgress(a + b, p) == FirstProgress(a, p)
  {
    hide FirstMove, MarkAt, After;
    if IsStructural(a) {
      MarkUnaffected(a, b);
    } else {
      MoveUnaffected(a, b, true);
      NotStructural(a, b);
    }
  }

  lemma NotStructural(a: string, b: string)
    requires a != "" && !IsStructural(a) && FirstMove(a, true).Some?
    ensures !IsStructural(a + b)
  {
  }

  lemma {:induction false} ReadBodyConcat(a: string, b: string, p: Place)
    requires ReadBody(a, p).Some?
    ensures var r := ReadBody(a, p).value; ReadBody(a + b, p) == Before(r.tokens, r.marks, ReadBody(b, r.place))
    decreases |a|
  {
    hide FirstProgress;
    if a == "" {
      assert a + b == b;
      BeforeNothing(ReadBody(b, p));
    } else {
      ProgressUnaffected(a, b, p);
      var r := FirstProgress(a, p).value;
      var rest := a[r.length..];
      assert (a + b)[r.length..] == rest + b;
      ReadBodyConcat(rest, b, r.place);
      var tail := ReadBody(rest, r.place).value;
      BeforeTwice(r.tokens, r.marks, tail.tokens, tail.marks, ReadBody(b, tail.place));
    }
  }

  // ---- line by line -----------------------------------------------------------------------

  lemma LettersConcat(a: string, b: string)
    ensures AsLetters(a + b) == AsLetters(a) + AsLetters(b)
  {
  }

  /** What is balanced inside a line is balanced in a body. */
  lemma {:induction false} InlineIsBody(s: string, d: nat, list: Option<Kind>)
    requires Read(s, d, true).Some?
    ensures var r := Read(s, d, true).value;
      ReadBody(s, Place(d, list)) == Some(BodyReading(Place(r.depth, list), AsLetters(r.text), r.marks))
    decreases |s|
  {
    hide FirstMove, FirstProgress;
    if s != "" {
      InlineIsProgress(s, d, list);
      var m := FirstMove(s, true).value;
      InlineIsBody(s[m.length..], d + m.up, list);
      LettersConcat(m.text, Read(s[m.length..], d + m.up, true).value.text);
    }
  }

  lemma InlineIsProgress(s: string, d: nat, list: Option<Kind>)
    requires s != "" && FirstMove(s, true).Some? && d + FirstMove(s, true).value.up >= 0
    ensures var m := FirstMove(s, true).value;
      FirstProgress(s, Place(d, list)) == Some(Progress(m.length, Place(d + m.up, list), AsLetters(m.text), m.marks))
  {
  }

  lemma ReadInline(text: string, list: Option<Kind>, d: nat)
    ensures ReadBody(InlineToLatex(text), Place(d, list)) ==
            Some(BodyReading(Place(d, list), AsLetters(Letters(text)), Delimiters(text)))
  {
    hide Read, ReadBody, InlineToLatex;
    InlineReadsBack(text, d);
    InlineIsBody(InlineToLatex(text), d, list);
  }

  lemma MarkSpelled(mark: Mark)
    requires mark.Heads? ==> 1 <= mark.level <= 3
    ensures IsStructural(Spelling(mark)) && MarkAt(Spelling(mark)) == Some(mark)
  {
  }

  lemma ReadMarkAlone(mark: Mark, p: Place)
    requires mark.Heads? ==> 1 <= mark.level <= 3
    requires After(p, mark).Some?
    ensures ReadBody(Spelling(mark), p) == Some(BodyReading(After(p, mark).value, [Structural(mark)], 0))
  {
    hide After;
    MarkSpelled(mark);
    var s := Spelling(mark);
    hide Spelling, MarkAt;
    assert s[|s|..] == "";
    assert [Structural(mark)] + [] == [Structural(mark)];
  }

  /** The environment after a line, where the line may stand. */
  function ListAfter(line: Line, list: Option<Kind>): Option<Option<Kind>> {
    match line
    case Begin(kind) => if list.None? then Some(Some(kind)) else None
    case End(kind) => if list == Some(kind) then Some(None) else None
    case Entry(_) => if list.Some? then Some(list) else None
    case Section(_, _) => if list.None? then Some(None) else None
    case Plain(_) => if list.None? then Some(None) else None
  }

  lemma ReadEntry(text: string, list: Option<Kind>)
    requires list.Some?
    ensures ReadBody(Latex(Entry(text)), Place(0, list)) ==
            Some(BodyReading(Place(0, list), Says(Entry(text)), Delimiters(text)))
  {
    hide ReadBody, InlineToLatex;
    ReadMarkAlone(Item, Place(0, list));
    ReadInline(text, list, 0);
    ReadBodyConcat("\\item ", InlineToLatex(text), Place(0, list));
  }

  lemma ReadSection(level: nat, text: string)
    ensures ReadBody(Latex(Section(level, text)), Place(0, None)) ==
            Some(BodyReading(Place(0, None), Says(Section(level, text)), Delimiters(text)))
  {
    hide ReadBody, InlineToLatex;
    var head := Heads(if level == 1 || level == 2 then level else 3);
    ReadMarkAlone(head, Place(0, None));
    ReadInline(text, None, 1);
    var inline := InlineToLatex(text);
    ReadBodyConcat(Spelling(head), inline + "}", Place(0, None));
    ReadBodyConcat(inline, "}", Place(1, None));
    ReadBrace();
    HeadingSpelled(level, inline);
    var said := AsLetters(Letters(text));
    assert said + [] == said;
  }

  lemma HeadingSpelled(level: nat, inline: string)
    ensures "\\" + SectionCommand(level) + "{" + inline + "}" ==
            Spelling(Heads(if level == 1 || level == 2 then level else 3)) + (inline + "}")
  {
    assert "\\" + SectionCommand(level) + "{" == Spelling(Heads(if level == 1 || level == 2 then level else 3));
  }

  lemma ReadBrace()
    ensures ReadBody("}", Place(1, None)) == Some(BodyReading(Place(0, None), [], 0))
  {
    assert FirstMove("}", true) == Some(Move(1, "", 0, -1));
    assert "}"[1..] == "";
    assert AsLetters("") == [];
    assert FirstProgress("}", Place(1, None)) == Some(Progress(1, Place(0, None), [], 0));
    BeforeNothing(ReadBody("", Place(0, None)));
  }

  lemma ReadLine(line: Line, list: Option<Kind>)
    requires ListAfter(line, list).Some?
    ensures ReadBody(Latex(line), Place(0, list)) ==
            Some(BodyReading(Place(0, ListAfter(line, list).value), Says(line), Marked(line)))
  {
    hide ReadBody, InlineToLatex;
    match line
    case Begin(kind) =>
      assert Latex(line) == Spelling(Opens(kind));
      ReadMarkAlone(Opens(kind), Place(0, list));
    case End(kind) =>
      assert Latex(line) == Spelling(Closes(kind));
      ReadMarkAlone(Closes(kind), Place(0, list));
    case Entry(text) => ReadEntry(text, list);
    case Section(level, text) => ReadSection(level, text);
    case Plain(text) => ReadInline(text, list, 0);
  }

  lemma ReadNewline(list: Option<Kind>)
    ensures ReadBody("\n", Place(0, list)) == Some(BodyReading(Place(0, list), [Letter('\n')], 0))
  {
    assert FirstMove("\n", true) == Some(Move(1, "\n", 0, 0));
    assert "\n"[1..] == "";
    assert AsLetters("\n") + [] == [Letter('\n')];
  }

  // ---- the whole body ---------------------------------------------------------------------

  function ListAtEnd(lines: seq<Line>, list: Option<Kind>): Option<Option<Kind>> {
    if lines == [] then Some(list)
    else
      var next := ListAfter(lines[0], list);
      if next.None? then None else ListAtEnd(lines[1..], next.value)
  }

  lemma {:induction false} ListAtEndConcat(a: seq<Line>, b: seq<Line>, list: Option<Kind>)
    requires ListAtEnd(a, list).Some?
    ensures ListAtEnd(a + b, list) == ListAtEnd(b, ListAtEnd(a, list).value)
  {
    if a == [] {
      assert a + b == b;
    } else {
      assert (a + b)[1..] == a[1..] + b;
      ListAtEndConcat(a[1..], b, ListAfter(a[0], list).value);
    }
  }

  lemma {:induction false} EntriesStayInside(blocks: seq<Block>, kind: Kind)
    requires forall i :: 0 <= i < |blocks| ==> blocks[i].Listed? && blocks[i].kind == kind
    ensures ListAtEnd(Entries(blocks), Some(kind)) == Some(Some(kind))
  {
    if blocks != [] {
      assert blocks[0].Listed?;
      EntriesStayInside(blocks[1..], kind);
    }
  }

  lemma OneLine(line: Line, list: Option<Kind>)
    ensures ListAtEnd([line], list) == ListAfter(line, list)
  {
    assert [line][1..] == [];
  }

  lemma {:induction false} GroupedIsNested(blocks: seq<Block>)
    ensures ListAtEnd(Grouped(blocks), None) == Some(None)
    decreases |blocks|
  {
    if blocks == [] {
    } else if blocks[0].Listed? {
      var kind := blocks[0].kind;
      var n := RunLength(blocks, kind);
      var entries, later := Entries(blocks[..n]), Grouped(blocks[n..]);
      EntriesStayInside(blocks[..n], kind);
      GroupedIsNested(blocks[n..]);
      hide ListAtEnd, Entries, RunLength;
      OneLine(Begin(kind), None);
      OneLine(End(kind), Some(kind));
      ListAtEndConcat([Begin(kind)], entries, None);
      ListAtEndConcat([Begin(kind)] + entries, [End(kind)], None);
      ListAtEndConcat([Begin(kind)] + entries + [End(kind)], later, None);
    } else {
      GroupedIsNested(blocks[1..]);
      assert ([LineOf(blocks[0])] + Grouped(blocks[1..]))[1..] == Grouped(blocks[1..]);
    }
  }

  lemma {:induction false} ReadLines(lines: seq<Line>, list: Option<Kind>)
    requires ListAtEnd(lines, list).Some?
    ensures ReadBody(Join("\n", LatexLines(lines)), Place(0, list)) ==
            Some(BodyReading(Place(0, ListAtEnd(lines, list).value), AllSay(lines), AllMarked(lines)))
  {
    hide Latex, Says, ListAfter;
    if lines == [] {
      assert Join("\n", LatexLines(lines)) == "";
    } else {
      hide ReadBody;
      ReadLine(lines[0], list);
      if |lines| == 1 {
        assert LatexLines(lines) == [Latex(lines[0])];
      } else {
        hide Join, AllSay;
        ReadLines(lines[1..], ListAfter(lines[0], list).value);
        ReadLineThen(lines[0], lines[1..], list);
        assert lines == [lines[0]] + lines[1..];
      }
    }
  }

  lemma ReadLineThen(line: Line, later: seq<Line>, list: Option<Kind>)
    requires later != [] && ListAfter(line, list).Some? && ListAtEnd(later, ListAfter(line, list).value).Some?
    requires var next := ListAfter(line, list).value;
      ReadBody(Join("\n", LatexLines(later)), Place(0, next)) ==
      Some(BodyReading(Place(0, ListAtEnd(later, next).value), AllSay(later), AllMarked(later)))
    ensures ReadBody(Join("\n", LatexLines([line] + later)), Place(0, list)) ==
            Some(BodyReading(Place(0, ListAtEnd(later, ListAfter(line, list).value).value),
                             AllSay([line] + later), AllMarked([line] + later)))
  {
    hide ReadBody, Latex, Says, ListAfter, ListAtEnd, Join;
    var next := ListAfter(line, list).value;
    var head, tail := Latex(line), LatexLines(later);
    ReadLine(line, list);
    ReadNewline(next);
    assert ([line] + later)[1..] == later;
    JoinStep(head, tail);
    ReadBodyConcat("\n", Join("\n", tail), Place(0, next));
    ReadBodyConcat(head, "\n" + Join("\n", tail), Place(0, list));
    assert Says(line) + ([Letter('\n')] + AllSay(later)) == Says(line) + [Letter('\n')] + AllSay(later);
  }

  lemma JoinStep(head: string, tail: seq<string>)
    requires tail != []
    ensures Join("\n", [head] + tail) == head + ("\n" + Join("\n", tail))
  {
    assert ([head] + tail)[1..] == tail;
    assert head + "\n" + Join("\n", tail) == head + ("\n" + Join("\n", tail));
  }

  /** Every body is well formed, with no environment and no brace open at its end, and says in order
      what the Markdown says: its headings, its runs of list lines and its paragraphs, with every
      asterisk and underscore accounted for. */
  lemma BodyReadsBack(content: string, isDigit: char -> bool)
    ensures var lines := Grouped(Blocks(SplitLines(content), isDigit));
      ReadBody(Body(content, isDigit), Place(0, None)) ==
      Some(BodyReading(Place(0, None), AllSay(lines), AllMarked(lines)))
  {
    var blocks := Blocks(SplitLines(content), isDigit);
    GroupedIsNested(blocks);
    ReadLines(Grouped(blocks), None);
  }
}
