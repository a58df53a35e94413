/**
 Markdown to a LaTeX body: the list environments that `markdown_to_latex_body`
 opens and closes line by line, and a reader of the finished text that accepts
 only well-formed bodies and tells what they say.
 */
module MarkdownLatex {
  import opened Options
  import opened PythonText
  import opened InlineLatex

  datatype Kind = Itemize | Enumerate

  /** A stripped line of the input. */
  datatype Block =
    | Blank
    | Heading(level: nat, text: string)
    | Listed(kind: Kind, text: string)
    | Paragraph(text: string)

  /** A line of the output. */
  datatype Line =
    | Begin(kind: Kind)
    | End(kind: Kind)
    | Entry(text: string)
    | Section(level: nat, text: string)
    | Plain(text: string)

  // ---- the translation --------------------------------------------------------------------

  function LeadingDigits(s: string, isDigit: char -> bool): (n: nat)
    ensures n <= |s|
  {
    if s != "" && isDigit(s[0]) then 1 + LeadingDigits(s[1..], isDigit) else 0
  }

  function BulletText(s: string): Option<string> {
    if |s| >= 2 && (s[0] == '-' || s[0] == '*') && IsSpace(s[1]) then Some(LStrip(s[1..])) else None
  }

  /** `isDigit` is what `\d` matches. */
  function NumberedText(s: string, isDigit: char -> bool): Option<string> {
    var n := LeadingDigits(s, isDigit);
    if 1 <= n && n + 1 < |s| && s[n] == '.' && IsSpace(s[n + 1]) then Some(LStrip(s[n + 1..])) else None
  }

  function BlockOf(stripped: string, isDigit: char -> bool): Block {
    if stripped == "" then Blank
    else
      var heading := PythonText.Heading(stripped, 6);
      if heading.Some? then Heading(heading.value.0, heading.value.1)
      else
        var bullet := BulletText(stripped);
        if bullet.Some? then Listed(Itemize, bullet.value)
        else
          var numbered := NumberedText(stripped, isDigit);
          if numbered.Some? then Listed(Enumerate, numbered.value) else Paragraph(stripped)
  }

  function Blocks(lines: seq<string>, isDigit: char -> bool): (blocks: seq<Block>)
    ensures |blocks| == |lines|
  {
    if lines == [] then [] else [BlockOf(Strip(lines[0]), isDigit)] + Blocks(lines[1..], isDigit)
  }

  lemma {:induction false} BlockAt(lines: seq<string>, isDigit: char -> bool, i: nat)
    requires i < |lines|
    ensures Blocks(lines, isDigit)[i] == BlockOf(Strip(lines[i]), isDigit)
  {
    if i > 0 {
      BlockAt(lines[1..], isDigit, i - 1);
    }
  }

  function Environment(kind: Kind): string {
    if kind == Itemize then "itemize" else "enumerate"
  }

  function SectionCommand(level: nat): string {
    if level == 1 then "section*" else if level == 2 then "subsection*" else "subsubsection*"
  }

  function Latex(line: Line): string {
    match line
    case Begin(kind) => "\\begin{" + Environment(kind) + "}"
    case End(kind) => "\\end{" + Environment(kind) + "}"
    case Entry(text) => "\\item " + InlineToLatex(text)
    case Section(level, text) => "\\" + SectionCommand(level) + "{" + InlineToLatex(text) + "}"
    case Plain(text) => InlineToLatex(text)
  }

  function LatexLines(lines: seq<Line>): seq<string> {
    if lines == [] then [] else [Latex(lines[0])] + LatexLines(lines[1..])
  }

  function LineOf(b: Block): Line {
    match b
    case Blank => Plain("")
    case Heading(level, text) => Section(level, text)
    case Listed(_, text) => Entry(text)
    case Paragraph(text) => Plain(text)
  }

  function RunLength(blocks: seq<Block>, kind: Kind): (n: nat)
    ensures n <= |blocks|
    ensures forall i :: 0 <= i < n ==> blocks[i].Listed? && blocks[i].kind == kind
    ensures n < |blocks| ==> !(blocks[n].Listed? && blocks[n].kind == kind)
  {
    if blocks != [] && blocks[0].Listed? && blocks[0].kind == kind then 1 + RunLength(blocks[1..], kind) else 0
  }

  function Entries(blocks: seq<Block>): seq<Line> {
    if blocks == [] then [] else [LineOf(blocks[0])] + Entries(blocks[1..])
  }

  /** What the body should be: every longest run of list lines of one kind in its own environment. */
  function Grouped(blocks: seq<Block>): seq<Line>
    decreases |blocks|
  {
    if blocks == [] then []
    else if blocks[0].Listed? then
      var n := RunLength(blocks, blocks[0].kind);
      [Begin(blocks[0].kind)] + Entries(blocks[..n]) + [End(blocks[0].kind)] + Grouped(blocks[n..])
    else [LineOf(blocks[0])] + Grouped(blocks[1..])
  }

  function Body(content: string, isDigit: char -> bool): string {
    Join("\n", LatexLines(Grouped(Blocks(SplitLines(content), isDigit))))
  }

  /** What is still to be written when `mode` is the open environment. */
  function Rest(blocks: seq<Block>, mode: Option<Kind>): seq<Line> {
    if mode.None? then Grouped(blocks)
    else
      var n := RunLength(blocks, mode.value);
      Entries(blocks[..n]) + [End(mode.value)] + Grouped(blocks[n..])
  }

  function Closing(mode: Option<Kind>): seq<Line> {
    if mode.Some? then [End(mode.value)] else []
  }

  /** The lines that one round of the loop appends. */
  function Written(b: Block, mode: Option<Kind>): seq<Line> {
    if !b.Listed? then Closing(mode) + [LineOf(b)]
    else if mode == Some(b.kind) then [LineOf(b)]
    else Closing(mode) + [Begin(b.kind), LineOf(b)]
  }

  function ModeAfter(b: Block): Option<Kind> {
    if b.Listed? then Some(b.kind) else None
  }

  lemma RunStep(b: Block, later: seq<Block>)
    requires b.Listed?
    ensures RunLength([b] + later, b.kind) == 1 + RunLength(later, b.kind)
    ensures Entries(([b] + later)[..1 + RunLength(later, b.kind)]) ==
            [LineOf(b)] + Entries(later[..RunLength(later, b.kind)])
    ensures ([b] + later)[1 + RunLength(later, b.kind)..] == later[RunLength(later, b.kind)..]
  {
    var all := [b] + later;
    assert all[1..] == later;
    var n := RunLength(later, b.kind);
    assert all[..1 + n][1..] == later[..n];
  }

  lemma RestStays(b: Block, later: seq<Block>)
    requires b.Listed?
    ensures Rest([b] + later, Some(b.kind)) == [LineOf(b)] + Rest(later, Some(b.kind))
    ensures Rest([b] + later, None) == [Begin(b.kind)] + Rest([b] + later, Some(b.kind))
  {
    hide RunLength, Entries;
    RunStep(b, later);
    var n := RunLength(later, b.kind);
    var entries, end, others := Entries(later[..n]), [End(b.kind)], Grouped(later[n..]);
    assert [LineOf(b)] + entries + end + others == [LineOf(b)] + (entries + end + others);
    assert [Begin(b.kind)] + ([LineOf(b)] + entries) + end + others ==
        [Begin(b.kind)] + ([LineOf(b)] + entries + end + others);
  }

  lemma RestCloses(blocks: seq<Block>, mode: Option<Kind>)
    requires mode.Some? && blocks != [] ==> ModeAfter(blocks[0]) != mode
    ensures Rest(blocks, mode) == Closing(mode) + Rest(blocks, None)
  {
    if mode.Some? {
      hide Grouped;
      NoRun(blocks, mode.value);
      assert [] + [End(mode.value)] + Grouped(blocks) == [End(mode.value)] + Grouped(blocks);
    }
  }

  lemma NoRun(blocks: seq<Block>, kind: Kind)
    requires blocks != [] ==> ModeAfter(blocks[0]) != Some(kind)
    ensures RunLength(blocks, kind) == 0 && Entries(blocks[..0]) == [] && blocks[0..] == blocks
  {
  }

  lemma RestStepListed(b: Block, later: seq<Block>, mode: Option<Kind>)
    requires b.Listed?
    ensures Rest([b] + later, mode) == Written(b, mode) + Rest(later, Some(b.kind))
  {
    hide Rest;
    RestStays(b, later);
    if mode != Some(b.kind) {
      RestCloses([b] + later, mode);
      var rest := Rest(later, Some(b.kind));
      assert Closing(mode) + ([Begin(b.kind)] + ([LineOf(b)] + rest)) ==
          Closing(mode) + [Begin(b.kind), LineOf(b)] + rest;
    }
  }

  lemma RestStepPlain(b: Block, later: seq<Block>, mode: Option<Kind>)
    requires !b.Listed?
    ensures Rest([b] + later, mode) == Written(b, mode) + Grouped(later)
  {
    hide RunLength, Entries;
    RestCloses([b] + later, mode);
    var rest := Grouped(later);
    assert ([b] + later)[1..] == later;
    assert Closing(mode) + ([LineOf(b)] + rest) == Closing(mode) + [LineOf(b)] + rest;
  }

  /** The grouping is what the loop produces, round by round. */
  lemma RestStep(b: Block, later: seq<Block>, mode: Option<Kind>)
    ensures Rest([b] + later, mode) == Written(b, mode) + Rest(later, ModeAfter(b))
  {
    if b.Listed? {
      RestStepListed(b, later, mode);
    } else {
      RestStepPlain(b, later, mode);
    }
  }

  lemma {:induction false} LatexLinesConcat(a: seq<Line>, b: seq<Line>)
    ensures LatexLines(a + b) == LatexLines(a) + LatexLines(b)
  {
    if a == [] {
      assert a + b == b;
    } else {
      assert (a + b)[1..] == a[1..] + b;
      LatexLinesConcat(a[1..], b);
    }
  }

  /** `out.append` */
  lemma Appended(before: seq<Line>, line: Line)
    ensures LatexLines(before + [line]) == LatexLines(before) + [Latex(line)]
  {
    LatexLinesConcat(before, [line]);
    assert LatexLines([line]) == [Latex(line)] + LatexLines([line][1..]);
  }

  /** `close_list` */
  method CloseList(out: seq<string>, mode: Option<Kind>, ghost done: seq<Line>)
    returns (out': seq<string>, mode': Option<Kind>)
    requires out == LatexLines(done)
    ensures mode' == None && out' == LatexLines(done + Closing(mode))
  {
    out', mode' := out, None;
    if mode.Some? {
      Appended(done, End(mode.value));
      out' := out + ["\\end{" + Environment(mode.value) + "}"];
    } else {
      assert done + Closing(mode) == done;
    }
  }

  lemma BlankLine()
    ensures Latex(Plain("")) == ""
  {
    assert EscapeLatex("") == BoldSub("") == ItalicSub("") == "";
  }

  /** One round of the loop. */
  method WriteLine(out: seq<string>, mode: Option<Kind>, stripped: string, isDigit: char -> bool, ghost done: seq<Line>)
    returns (out': seq<string>, mode': Option<Kind>)
    requires out == LatexLines(done)
    ensures mode' == ModeAfter(BlockOf(stripped, isDigit))
    ensures out' == LatexLines(done + Written(BlockOf(stripped, isDigit), mode))
  {
    hide BlockOf, LatexLines;
    var block := BlockOf(stripped, isDigit);
    out', mode' := out, mode;
    if block.Listed? {
      ghost var before := done;
      if mode != Some(block.kind) {
        out', mode' := CloseList(out, mode, done);
        Appended(done + Closing(mode), Begin(block.kind));
        before := done + Closing(mode) + [Begin(block.kind)];
        out', mode' := out' + ["\\begin{" + Environment(block.kind) + "}"], Some(block.kind);
      }
      Appended(before, Entry(block.text));
      assert before + [Entry(block.text)] == done + Written(block, mode);
      out' := out' + ["\\item " + InlineToLatex(block.text)];
    } else {
      out', mode' := CloseList(out, mode, done);
      Appended(done + Closing(mode), LineOf(block));
      assert done + Closing(mode) + [LineOf(block)] == done + Written(block, mode);
      BlankLine();
      match block
      case Blank => out' := out' + [""];
      case Heading(level, text) => out' := out' + ["\\" + SectionCommand(level) + "{" + InlineToLatex(text) + "}"];
      case Paragraph(text) => out' := out' + [InlineToLatex(text)];
    }
  }

  /** `markdown_to_latex_body` */
  method MarkdownToLatexBody(content: string, isDigit: char -> bool) returns (body: string)
    ensures body == Body(content, isDigit)
  {
    hide BlockOf, LatexLines, Written, Rest;
    var lines := SplitLines(content);
    ghost var blocks := Blocks(lines, isDigit);
    var out: seq<string> := [];
    var mode: Option<Kind> := None;
    ghost var done: seq<Line> := [];
    Starts(blocks);
    for i := 0 to |lines|
      invariant out == LatexLines(done)
      invariant done + Rest(blocks[i..], mode) == Grouped(blocks)
    {
      BlockAt(lines, isDigit, i);
      ghost var b, later := blocks[i], blocks[i + 1..];
      assert blocks[i..] == [b] + later;
      RestStep(b, later, mode);
      assert done + (Written(b, mode) + Rest(later, ModeAfter(b))) ==
          (done + Written(b, mode)) + Rest(later, ModeAfter(b));
      ghost var written := Written(b, mode);
      out, mode := WriteLine(out, mode, Strip(lines[i]), isDigit, done);
      done := done + written;
    }
    Ends(blocks, mode);
    out, mode := CloseList(out, mode, done);
    body := Join("\n", out);
  }

  lemma Starts(blocks: seq<Block>)
    ensures LatexLines([]) == []
    ensures [] + Rest(blocks[0..], None) == Grouped(blocks)
  {
    assert blocks[0..] == blocks;
  }

  lemma Ends(blocks: seq<Block>, mode: Option<Kind>)
    ensures Rest(blocks[|blocks|..], mode) == Closing(mode)
  {
    RestCloses([], mode);
    assert Rest([], None) == [];
  }
}
