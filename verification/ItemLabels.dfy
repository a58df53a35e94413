/**
 LaTeX's `\item` takes an optional label in brackets, even after white space. A
 reader that knows this, and when a body still says what its Markdown says.
 */
module ItemLabels {
  import opened Options
  import opened PythonText
  import opened InlineLatex
  import opened MarkdownLatex
  import opened LatexDocument
  import opened Strings

  predicate IsBlank(c: char) {
    c == ' ' || c == '\t' || c == '\n'
  }

  function SkipBlanks(s: string): (r: string)
    ensures |r| <= |s|
  {
    if s != "" && (s[0] == ' ' || s[0] == '\t') then SkipBlanks(s[1..]) else s
  }

  /** What LaTeX looks at when it looks for a bracket: blanks and one line end are skipped. */
  function AfterItem(s: string): (r: string)
    ensures |r| <= |s|
  {
    var t := SkipBlanks(s);
    if t != "" && t[0] == '\n' then SkipBlanks(t[1..]) else t
  }

  predicate OpensLabel(s: string) {
    AfterItem(s) != "" && AfterItem(s)[0] == '['
  }

  function Shifted(n: nat, k: Option<nat>): Option<nat> {
    if k.None? then None else Some(n + k.value)
  }

  /** The bracket that closes a label: outside braces, and before a blank line. */
  function LabelEnd(s: string, depth: nat): (k: Option<nat>)
    ensures k.Some? ==> k.value < |s| && s[k.value] == ']'
    decreases |s|
  {
    if s == "" then None
    else if s[0] == ']' && depth == 0 then Some(0)
    else if s[0] == '\\' then if |s| < 2 then None else Shifted(2, LabelEnd(s[2..], depth))
    else if s[0] == '}' && depth == 0 then None
    else if s[0] == '\n' && |s| > 1 && s[1] == '\n' then None
    else Shifted(1, LabelEnd(s[1..], if s[0] == '{' then depth + 1 else if s[0] == '}' then depth - 1 else depth))
  }

  /** The reader of LatexDocument, with labels: an unclosed one fails. */
  function ReadTex(s: string, p: Place): Option<BodyReading>
    decreases |s|
  {
    if s == "" then Some(BodyReading(p, [], 0))
    else
      var first := FirstProgress(s, p);
      if first.None? then None
      else
        var r, rest := first.value, s[first.value.length..];
        if r.tokens == [Structural(Item)] && OpensLabel(rest) then
          var inside := AfterItem(rest)[1..];
          var end := LabelEnd(inside, 0);
          if end.None? then None
          else Before(r.tokens + [Label(inside[..end.value])], r.marks, ReadTex(inside[end.value + 1..], r.place))
        else Before(r.tokens, r.marks, ReadTex(rest, r.place))
  }

  predicate HasLabel(tokens: seq<Token>) {
    exists i :: 0 <= i < |tokens| && tokens[i].Label?
  }

  // ---- texts without labels ---------------------------------------------------------------

  /** Whatever follows, this is no label. */
  predicate IsSettled(s: string) {
    s != "" && !IsBlank(s[0]) && s[0] != '['
  }

  predicate NoLabels(s: string, p: Place)
    decreases |s|
  {
    s == "" ||
    var first := FirstProgress(s, p);
    first.None? ||
    var rest := s[first.value.length..];
    (first.value.tokens == [Structural(Item)] ==> IsSettled(rest)) && NoLabels(rest, first.value.place)
  }

  lemma SettledOpensNoLabel(s: string, more: string)
    requires IsSettled(s)
    ensures !OpensLabel(s + more)
  {
  }

  /** A step of the reader that meets no label. */
  lemma TexStep(s: string, p: Place)
    requires s != "" && FirstProgress(s, p).Some?
    requires var r := FirstProgress(s, p).value; r.tokens == [Structural(Item)] ==> !OpensLabel(s[r.length..])
    ensures var r := FirstProgress(s, p).value;
      ReadTex(s, p) == Before(r.tokens, r.marks, ReadTex(s[r.length..], r.place))
  {
    hide FirstProgress, OpensLabel;
  }

  lemma {:induction false} TexConcat(a: string, b: string, p: Place)
    requires ReadBody(a, p).Some? && NoLabels(a, p)
    ensures var r := ReadBody(a, p).value; ReadTex(a + b, p) == Before(r.tokens, r.marks, ReadTex(b, r.place))
    decreases |a|
  {
    hide FirstProgress, OpensLabel, IsSettled, ReadTex;
    if a == "" {
      assert a + b == b;
      BeforeNothing(ReadTex(b, p));
    } else {
      ProgressUnaffected(a, b, p);
      var r := FirstProgress(a, p).value;
      var rest := a[r.length..];
      assert (a + b)[r.length..] == rest + b;
      TexConcat(rest, b, r.place);
      if r.tokens == [Structural(Item)] {
        SettledOpensNoLabel(rest, b);
      }
      TexStep(a + b, p);
      var tail := ReadBody(rest, r.place).value;
      BeforeTwice(r.tokens, r.marks, tail.tokens, tail.marks, ReadTex(b, tail.place));
    }
  }

  lemma {:induction false} NoLabelsConcat(a: string, b: string, p: Place)
    requires ReadBody(a, p).Some? && NoLabels(a, p) && NoLabels(b, ReadBody(a, p).value.place)
    ensures NoLabels(a + b, p)
    decreases |a|
  {
    hide FirstProgress;
    if a == "" {
      assert a + b == b;
    } else {
      ProgressUnaffected(a, b, p);
      var r := FirstProgress(a, p).value;
      assert (a + b)[r.length..] == a[r.length..] + b;
      NoLabelsConcat(a[r.length..], b, r.place);
    }
  }

  lemma LettersAreNoItem(text: string)
    ensures AsLetters(text) != [Structural(Item)]
  {
    if text != "" {
      assert AsLetters(text)[0].Letter?;
    }
  }

  lemma {:induction false} InlineHasNoLabels(s: string, d: nat, list: Option<Kind>)
    requires Read(s, d, true).Some?
    ensures NoLabels(s, Place(d, list))
    decreases |s|
  {
    hide FirstMove, FirstProgress;
    if s != "" {
      InlineIsProgress(s, d, list);
      var m := FirstMove(s, true).value;
      LettersAreNoItem(m.text);
      InlineHasNoLabels(s[m.length..], d + m.up, list);
    }
  }

  lemma InlineHasNone(text: string, d: nat, list: Option<Kind>)
    ensures NoLabels(InlineToLatex(text), Place(d, list))
  {
    hide InlineToLatex, Read, NoLabels;
    InlineReadsBack(text, d);
    InlineHasNoLabels(InlineToLatex(text), d, list);
  }

  lemma MarkHasNone(mark: Mark, p: Place)
    requires (mark.Heads? ==> 1 <= mark.level <= 3) && mark != Item && After(p, mark).Some?
    ensures NoLabels(Spelling(mark), p)
  {
    hide After;
    MarkSpelled(mark);
    var s := Spelling(mark);
    hide Spelling, MarkAt;
    assert s[|s|..] == "";
  }

  // ---- how a line starts ------------------------------------------------------------------

  /** `t` starts like `s` or with a command. */
  predicate StartsLike(t: string, s: string) {
    t != "" && s != "" && (t[0] == s[0] || t[0] == '\\')
  }

  lemma InlineStarts(text: string)
    requires text != ""
    ensures StartsLike(InlineToLatex(text), text)
    ensures text[0] == '[' ==> InlineToLatex(text)[0] == '['
  {
    var escaped := EscapeLatex(text);
    var bold := BoldSub(escaped);
    assert escaped[0] == LatexSpecial(text[0])[0];
    BoldStarts(escaped);
    ItalicStarts(bold);
    ReplaceStarts(ItalicSub(bold));
  }

  lemma BoldStarts(s: string)
    requires s != ""
    ensures StartsLike(BoldSub(s), s) && (s[0] != '*' ==> BoldSub(s)[0] == s[0])
  {
  }

  lemma ItalicStarts(s: string)
    requires s != ""
    ensures StartsLike(ItalicSub(s), s) && (!IsDelimiter(s[0]) ==> ItalicSub(s)[0] == s[0])
  {
  }

  lemma ReplaceStarts(s: string)
    requires s != ""
    ensures StartsLike(Replace(s, '_', "\\_"), s) && (s[0] != '_' ==> Replace(s, '_', "\\_")[0] == s[0])
  {
  }

  // ---- lines ------------------------------------------------------------------------------

  /** A list line whose text starts with a bracket. */
  predicate IsLabelled(line: Line) {
    line.Entry? && line.text != "" && line.text[0] == '['
  }

  /** List lines have a text, and it is stripped. */
  predicate IsProper(line: Line) {
    line.Entry? ==> line.text != "" && !IsBlank(line.text[0])
  }

  lemma LineHasNone(line: Line, list: Option<Kind>)
    requires ListAfter(line, list).Some? && IsProper(line) && !IsLabelled(line)
    ensures NoLabels(Latex(line), Place(0, list))
  {
    hide InlineToLatex, ReadBody, NoLabels;
    match line
    case Begin(kind) =>
      assert Latex(line) == Spelling(Opens(kind));
      MarkHasNone(Opens(kind), Place(0, list));
    case End(kind) =>
      assert Latex(line) == Spelling(Closes(kind));
      MarkHasNone(Closes(kind), Place(0, list));
    case Entry(text) => EntryHasNone(text, list);
    case Section(level, text) => SectionHasNone(level, text);
    case Plain(text) => InlineHasNone(text, 0, list);
  }

  lemma ItemFirst(rest: string, list: Option<Kind>)
    requires list.Some?
    ensures FirstProgress("\\item " + rest, Place(0, list)) == Some(Progress(6, Place(0, list), [Structural(Item)], 0))
    ensures ("\\item " + rest)[6..] == rest
  {
    MarkSpelled(Item);
    ProgressUnaffected("\\item ", rest, Place(0, list));
  }

  lemma EntryHasNone(text: string, list: Option<Kind>)
    requires list.Some? && text != "" && !IsBlank(text[0]) && text[0] != '['
    ensures NoLabels(Latex(Entry(text)), Place(0, list))
  {
    hide InlineToLatex, FirstProgress;
    InlineStarts(text);
    ItemFirst(InlineToLatex(text), list);
    InlineHasNone(text, 0, list);
  }

  lemma SectionHasNone(level: nat, text: string)
    ensures NoLabels(Latex(Section(level, text)), Place(0, None))
  {
    hide InlineToLatex, ReadBody, NoLabels;
    var head, inline := Heads(if level == 1 || level == 2 then level else 3), InlineToLatex(text);
    HeadingSpelled(level, inline);
    MarkHasNone(head, Place(0, None));
    ReadMarkAlone(head, Place(0, None));
    InlineHasNone(text, 1, None);
    ReadInline(text, None, 1);
    BraceHasNone();
    NoLabelsConcat(inline, "}", Place(1, None));
    NoLabelsConcat(Spelling(head), inline + "}", Place(0, None));
  }

  lemma BraceHasNone()
    ensures NoLabels("}", Place(1, None))
  {
    assert FirstMove("}", true) == Some(Move(1, "", 0, -1));
    assert "}"[1..] == "";
    LettersAreNoItem("");
  }

  lemma NewlineHasNone(list: Option<Kind>)
    ensures NoLabels("\n", Place(0, list))
  {
    assert FirstMove("\n", true) == Some(Move(1, "\n", 0, 0));
    assert "\n"[1..] == "";
    LettersAreNoItem("\n");
  }

  /** Reading a labelled line goes wrong, whatever follows. */
  lemma LabelledLine(text: string, tail: string, list: Option<Kind>)
    requires list.Some? && text != "" && text[0] == '['
    ensures var r := ReadTex(Latex(Entry(text)) + tail, Place(0, list)); r.None? || HasLabel(r.value.tokens)
  {
    hide InlineToLatex, FirstProgress, LabelEnd;
    InlineStarts(text);
    var rest := InlineToLatex(text) + tail;
    ItemFirst(rest, list);
    assert Latex(Entry(text)) + tail == "\\item " + rest;
    assert AfterItem(rest) == rest;
    var r := ReadTex("\\item " + rest, Place(0, list));
    if r.Some? {
      assert r.value.tokens[1].Label?;
    }
  }


  // ---- bodies -----------------------------------------------------------------------------

  function BodyOf(lines: seq<Line>): string {
    Join("\n", LatexLines(lines))
  }

  predicate AnyLabelled(lines: seq<Line>) {
    lines != [] && (IsLabelled(lines[0]) || AnyLabelled(lines[1..]))
  }

  predicate AllProper(lines: seq<Line>) {
    lines == [] || (IsProper(lines[0]) && AllProper(lines[1..]))
  }

  lemma BodyStep(line: Line, later: seq<Line>)
    ensures BodyOf([line] + later) == Latex(line) + if later == [] then "" else "\n" + BodyOf(later)
  {
    assert ([line] + later)[1..] == later;
    if later == [] {
      assert LatexLines([line] + later) == [Latex(line)];
    } else {
      JoinStep(Latex(line), LatexLines(later));
    }
  }

  lemma TexLine(line: Line, tail: string, list: Option<Kind>)
    requires ListAfter(line, list).Some? && IsProper(line) && !IsLabelled(line)
    ensures ReadTex(Latex(line) + tail, Place(0, list)) ==
            Before(Says(line), Marked(line), ReadTex(tail, Place(0, ListAfter(line, list).value)))
  {
    hide Latex, Says, IsProper, IsLabelled, ReadBody, ReadTex, NoLabels;
    LineHasNone(line, list);
    ReadLine(line, list);
    TexConcat(Latex(line), tail, Place(0, list));
  }

  lemma TexNewline(tail: string, list: Option<Kind>)
    ensures ReadTex("\n" + tail, Place(0, list)) == Before([Letter('\n')], 0, ReadTex(tail, Place(0, list)))
  {
    hide ReadBody, ReadTex, NoLabels;
    NewlineHasNone(list);
    ReadNewline(list);
    TexConcat("\n", tail, Place(0, list));
  }

  /** A line without label in front of a body. */
  lemma TexLineThen(line: Line, later: seq<Line>, list: Option<Kind>)
    requires ListAfter(line, list).Some? && IsProper(line) && !IsLabelled(line) && later != []
    ensures ReadTex(BodyOf([line] + later), Place(0, list)) ==
            Before(Says(line) + [Letter('\n')], Marked(line),
                   ReadTex(BodyOf(later), Place(0, ListAfter(line, list).value)))
  {
    hide Latex, Says, IsProper, IsLabelled, ReadTex, BodyOf, ListAfter, Before;
    var next := ListAfter(line, list).value;
    BodyStep(line, later);
    TexLine(line, "\n" + BodyOf(later), list);
    TexNewline(BodyOf(later), next);
    BeforeTwice(Says(line), Marked(line), [Letter('\n')], 0, ReadTex(BodyOf(later), Place(0, next)));
  }

  lemma TexLastLine(line: Line, list: Option<Kind>)
    requires ListAfter(line, list).Some? && IsProper(line) && !IsLabelled(line)
    ensures ReadTex(BodyOf([line]), Place(0, list)) ==
            Some(BodyReading(Place(0, ListAfter(line, list).value), Says(line), Marked(line)))
  {
    hide Latex, Says, IsProper, IsLabelled, BodyOf, ListAfter;
    BodyStep(line, []);
    assert [line] + [] == [line] && Latex(line) + "" == Latex(line);
    TexLine(line, "", list);
    assert Says(line) + [] == Says(line);
  }

  lemma LabelStays(tokens: seq<Token>, marks: nat, r: Option<BodyReading>)
    requires r.None? || HasLabel(r.value.tokens)
    ensures var more := Before(tokens, marks, r); more.None? || HasLabel(more.value.tokens)
  {
    if r.Some? {
      var i :| 0 <= i < |r.value.tokens| && r.value.tokens[i].Label?;
      assert (tokens + r.value.tokens)[|tokens| + i].Label?;
    }
  }

  lemma AllStep(line: Line, later: seq<Line>, list: Option<Kind>)
    requires later != [] && ListAfter(line, list).Some?
    ensures AllSay([line] + later) == Says(line) + [Letter('\n')] + AllSay(later)
    ensures AllMarked([line] + later) == Marked(line) + AllMarked(later)
    ensures ListAtEnd([line] + later, list) == ListAtEnd(later, ListAfter(line, list).value)
  {
    hide Says, Marked, ListAfter;
    assert ([line] + later)[1..] == later;
  }

  ghost predicate ReadsAsMeant(lines: seq<Line>, list: Option<Kind>) {
    ListAtEnd(lines, list).Some? &&
    ReadTex(BodyOf(lines), Place(0, list)) ==
    Some(BodyReading(Place(0, ListAtEnd(lines, list).value), AllSay(lines), AllMarked(lines)))
  }

  lemma NothingReadsAsMeant(list: Option<Kind>)
    ensures ReadsAsMeant([], list)
  {
    assert BodyOf([]) == "";
  }

  lemma LastReadsAsMeant(line: Line, list: Option<Kind>)
    requires ListAfter(line, list).Some? && IsProper(line) && !IsLabelled(line)
    ensures ReadsAsMeant([line], list)
  {
    hide ReadTex, BodyOf, Says, Marked, ListAfter, IsProper, IsLabelled, AllSay, AllMarked, ListAtEnd;
    TexLastLine(line, list);
    OneLine(line, list);
    OneLineSays(line);
  }

  lemma OneLineSays(line: Line)
    ensures AllSay([line]) == Says(line) && AllMarked([line]) == Marked(line)
  {
    hide Says, Marked;
    assert [line][1..] == [];
  }

  lemma LineReadsAsMeant(line: Line, later: seq<Line>, list: Option<Kind>)
    requires ListAfter(line, list).Some? && IsProper(line) && !IsLabelled(line) && later != []
    requires ReadsAsMeant(later, ListAfter(line, list).value)
    ensures ReadsAsMeant([line] + later, list)
  {
    hide ReadTex, BodyOf, Says, Marked, ListAfter, IsProper, IsLabelled, AllSay, AllMarked, ListAtEnd;
    TexLineThen(line, later, list);
    AllStep(line, later, list);
  }

  /** Without labelled lines LaTeX reads a body as it is meant. */
  lemma {:induction false} UnlabelledBody(lines: seq<Line>, list: Option<Kind>)
    requires ListAtEnd(lines, list).Some? && AllProper(lines) && !AnyLabelled(lines)
    ensures ReadsAsMeant(lines, list)
  {
    hide ReadsAsMeant, ListAfter, IsLabelled, IsProper;
    if lines == [] {
      NothingReadsAsMeant(list);
    } else {
      assert lines == [lines[0]] + lines[1..];
      if lines[1..] == [] {
        assert lines == [lines[0]];
        LastReadsAsMeant(lines[0], list);
      } else {
        UnlabelledBody(lines[1..], ListAfter(lines[0], list).value);
        LineReadsAsMeant(lines[0], lines[1..], list);
      }
    }
  }

  /** With one it takes the text in brackets for a label, or finds no end of it. */
  lemma {:induction false} LabelledBody(lines: seq<Line>, list: Option<Kind>)
    requires ListAtEnd(lines, list).Some? && AllProper(lines) && AnyLabelled(lines)
    ensures var r := ReadTex(BodyOf(lines), Place(0, list)); r.None? || HasLabel(r.value.tokens)
  {
    hide Latex, Says, IsProper, HasLabel, Marked, ReadTex, BodyOf;
    assert lines == [lines[0]] + lines[1..];
    if IsLabelled(lines[0]) {
      BodyStep(lines[0], lines[1..]);
      LabelledLine(lines[0].text, if lines[1..] == [] then "" else "\n" + BodyOf(lines[1..]), list);
    } else {
      var next := ListAfter(lines[0], list).value;
      LabelledBody(lines[1..], next);
      TexLineThen(lines[0], lines[1..], list);
      LabelStays(Says(lines[0]) + [Letter('\n')], Marked(lines[0]), ReadTex(BodyOf(lines[1..]), Place(0, next)));
    }
  }

  // ---- from Markdown ----------------------------------------------------------------------

  /** A list line of the Markdown whose text starts with a bracket. */
  predicate StartsWithBracket(b: Block) {
    b.Listed? && b.text != "" && b.text[0] == '['
  }

  predicate AnyBracket(blocks: seq<Block>) {
    blocks != [] && (StartsWithBracket(blocks[0]) || AnyBracket(blocks[1..]))
  }

  predicate ProperBlocks(blocks: seq<Block>) {
    blocks == [] || (IsProper(LineOf(blocks[0])) && ProperBlocks(blocks[1..]))
  }

  lemma {:induction false} LStripKeeps(s: string)
    requires s != "" && !IsSpace(s[|s| - 1])
    ensures LStrip(s) != ""
  {
    if IsSpace(s[0]) {
      LStripKeeps(s[1..]);
    }
  }

  lemma {:induction false} BlocksAreProper(lines: seq<string>, isDigit: char -> bool)
    ensures ProperBlocks(Blocks(lines, isDigit))
  {
    if lines != [] {
      BlockIsProper(Strip(lines[0]), isDigit);
      hide BlockOf, IsProper;
      BlocksAreProper(lines[1..], isDigit);
    }
  }

  lemma StrippedTail(s: string, k: nat)
    requires s != "" && !IsSpace(s[|s| - 1]) && k < |s|
    ensures LStrip(s[k..]) != "" && !IsBlank(LStrip(s[k..])[0])
  {
    hide LStrip;
    LStripKeeps(s[k..]);
  }

  lemma BlockIsProper(s: string, isDigit: char -> bool)
    requires s != "" ==> !IsSpace(s[|s| - 1])
    ensures IsProper(LineOf(BlockOf(s, isDigit)))
  {
    hide LStrip, IsSpace, IsBlank, LeadingDigits, PythonText.Heading;
    if BulletText(s).Some? {
      StrippedTail(s, 1);
    }
    if NumberedText(s, isDigit).Some? {
      StrippedTail(s, LeadingDigits(s, isDigit) + 1);
    }
  }

  lemma {:induction false} LabelledConcat(a: seq<Line>, b: seq<Line>)
    ensures AnyLabelled(a + b) == (AnyLabelled(a) || AnyLabelled(b)) &&
            AllProper(a + b) == (AllProper(a) && AllProper(b))
  {
    hide IsLabelled, IsProper;
    if a == [] {
      assert a + b == b;
    } else {
      assert (a + b)[1..] == a[1..] + b;
      LabelledConcat(a[1..], b);
    }
  }

  lemma {:induction false} BracketConcat(a: seq<Block>, b: seq<Block>)
    ensures AnyBracket(a + b) == (AnyBracket(a) || AnyBracket(b)) &&
            ProperBlocks(a + b) == (ProperBlocks(a) && ProperBlocks(b))
  {
    hide StartsWithBracket, IsProper;
    if a == [] {
      assert a + b == b;
    } else {
      assert (a + b)[1..] == a[1..] + b;
      BracketConcat(a[1..], b);
    }
  }

  lemma {:induction false} EntriesLabelled(blocks: seq<Block>)
    ensures AnyLabelled(Entries(blocks)) == AnyBracket(blocks) && AllProper(Entries(blocks)) == ProperBlocks(blocks)
  {
    if blocks != [] {
      assert IsLabelled(LineOf(blocks[0])) == StartsWithBracket(blocks[0]);
      hide IsLabelled, StartsWithBracket, IsProper;
      EntriesLabelled(blocks[1..]);
    }
  }

  lemma NoListLine(line: Line)
    requires !line.Entry?
    ensures !AnyLabelled([line]) && AllProper([line])
  {
    assert [line][1..] == [];
  }

  lemma Surrounded(kind: Kind, entries: seq<Line>, later: seq<Line>)
    ensures AnyLabelled([Begin(kind)] + entries + [End(kind)] + later) == (AnyLabelled(entries) || AnyLabelled(later))
    ensures AllProper([Begin(kind)] + entries + [End(kind)] + later) == (AllProper(entries) && AllProper(later))
  {
    hide AnyLabelled, AllProper;
    NoListLine(Begin(kind));
    NoListLine(End(kind));
    LabelledConcat([Begin(kind)], entries);
    LabelledConcat([Begin(kind)] + entries, [End(kind)]);
    LabelledConcat([Begin(kind)] + entries + [End(kind)], later);
  }

  lemma {:induction false} GroupedLabelled(blocks: seq<Block>)
    ensures AnyLabelled(Grouped(blocks)) == AnyBracket(blocks) && AllProper(Grouped(blocks)) == ProperBlocks(blocks)
    decreases |blocks|
  {
    if blocks == [] {
    } else if blocks[0].Listed? {
      var kind := blocks[0].kind;
      var n := RunLength(blocks, kind);
      EntriesLabelled(blocks[..n]);
      GroupedLabelled(blocks[n..]);
      assert blocks == blocks[..n] + blocks[n..];
      hide AnyLabelled, AllProper, AnyBracket, ProperBlocks, Entries, RunLength;
      BracketConcat(blocks[..n], blocks[n..]);
      Surrounded(kind, Entries(blocks[..n]), Grouped(blocks[n..]));
    } else {
      assert IsLabelled(LineOf(blocks[0])) == StartsWithBracket(blocks[0]);
      hide IsLabelled, StartsWithBracket, IsProper;
      GroupedLabelled(blocks[1..]);
      assert ([LineOf(blocks[0])] + Grouped(blocks[1..]))[1..] == Grouped(blocks[1..]);
    }
  }

  lemma {:induction false} AnyBracketIsExists(blocks: seq<Block>)
    ensures AnyBracket(blocks) <==> exists b <- blocks :: StartsWithBracket(b)
  {
    hide StartsWithBracket;
    if blocks != [] {
      AnyBracketIsExists(blocks[1..]);
      assert forall b :: b in blocks <==> b == blocks[0] || b in blocks[1..];
    }
  }

  lemma {:induction false} MeaningHasNoLabel(lines: seq<Line>)
    ensures !HasLabel(AllSay(lines))
  {
    if |lines| > 1 {
      MeaningHasNoLabel(lines[1..]);
    }
  }

  /** LaTeX reads a body as the reader without labels does, and as BodyReadsBack says, if and only if no
      list line of the Markdown has a text that starts with a bracket. */
  lemma ReadsAsMeantIff(content: string, isDigit: char -> bool)
    ensures var body, blocks := Body(content, isDigit), Blocks(SplitLines(content), isDigit);
      && (ReadTex(body, Place(0, None)) == ReadBody(body, Place(0, None)) <==>
          forall b <- blocks :: !StartsWithBracket(b))
      && (ReadTex(body, Place(0, None)) == ReadBody(body, Place(0, None)) <==> ReadsAsMeant(Grouped(blocks), None))
      && ((exists b <- blocks :: StartsWithBracket(b)) ==>
            ReadTex(body, Place(0, None)).None? || HasLabel(ReadTex(body, Place(0, None)).value.tokens))
  {
    var blocks := Blocks(SplitLines(content), isDigit);
    var lines := Grouped(blocks);
    BlocksAreProper(SplitLines(content), isDigit);
    GroupedLabelled(blocks);
    GroupedIsNested(blocks);
    AnyBracketIsExists(blocks);
    BodyReadsBack(content, isDigit);
    MeaningHasNoLabel(lines);
    hide StartsWithBracket, HasLabel, ReadTex, ReadBody, AllSay, AllMarked, Grouped, Blocks, AllProper, AnyLabelled;
    assert BodyOf(lines) == Body(content, isDigit);
    if AnyBracket(blocks) {
      LabelledBody(lines, None);
    } else {
      UnlabelledBody(lines, None);
    }
  }

  // ---- what goes wrong --------------------------------------------------------------------

  /** Only a closing bracket ends a label. */
  lemma {:induction false} LabelNeedsBracket(s: string, p: Place)
    ensures var r := ReadTex(s, p); r.Some? && HasLabel(r.value.tokens) ==> ']' in s
    decreases |s|
  {
    hide FirstProgress, AfterItem, LabelEnd, HasLabel;
    if s != "" && FirstProgress(s, p).Some? {
      var r := FirstProgress(s, p).value;
      var rest := s[r.length..];
      if r.tokens == [Structural(Item)] && OpensLabel(rest) {
        LabelIsInside(rest);
      } else {
        NoLabelAtFirst(s, p);
        LabelNeedsBracket(rest, r.place);
        LabelComesLater(r.tokens, r.marks, ReadTex(rest, r.place));
      }
    } else {
      NoLabelInNothing();
    }
  }

  lemma NoLabelInNothing()
    ensures !HasLabel([])
  {
  }

  lemma LabelIsInside(s: string)
    requires OpensLabel(s)
    ensures LabelEnd(AfterItem(s)[1..], 0).Some? ==> ']' in s
  {
    hide LabelEnd;
    var t := AfterItem(s);
    AfterItemIsSuffix(s);
    if LabelEnd(t[1..], 0).Some? {
      assert t[1 + LabelEnd(t[1..], 0).value] == ']';
    }
  }

  lemma LabelComesLater(tokens: seq<Token>, marks: nat, r: Option<BodyReading>)
    requires !HasLabel(tokens)
    ensures r.Some? && HasLabel(tokens + r.value.tokens) ==> HasLabel(r.value.tokens)
  {
    if r.Some? && HasLabel(tokens + r.value.tokens) {
      var i :| 0 <= i < |tokens + r.value.tokens| && (tokens + r.value.tokens)[i].Label?;
      assert r.value.tokens[i - |tokens|].Label?;
    }
  }

  lemma LettersAreNoLabels(text: string)
    ensures !HasLabel(AsLetters(text))
  {
  }

  lemma MarkIsNoLabel(mark: Mark)
    ensures !HasLabel([Structural(mark)])
  {
  }

  lemma NoLabelAtFirst(s: string, p: Place)
    requires s != "" && FirstProgress(s, p).Some?
    ensures !HasLabel(FirstProgress(s, p).value.tokens)
  {
    hide FirstMove, MarkAt, After, IsStructural, HasLabel;
    if IsStructural(s) {
      MarkIsNoLabel(MarkAt(s).value);
    } else {
      LettersAreNoLabels(FirstMove(s, true).value.text);
    }
  }

  lemma AfterItemIsSuffix(s: string)
    ensures forall c <- AfterItem(s) :: c in s
  {
    SkipBlanksIsSuffix(s);
    var t := SkipBlanks(s);
    if t != "" {
      SkipBlanksIsSuffix(t[1..]);
    }
  }

  lemma {:induction false} SkipBlanksIsSuffix(s: string)
    ensures forall c <- SkipBlanks(s) :: c in s
  {
    if s != "" {
      SkipBlanksIsSuffix(s[1..]);
    }
  }

  lemma {:induction false} OrdinaryText(s: string)
    requires forall c <- s :: LatexSpecial(c) == [c] && !IsDelimiter(c)
    ensures InlineToLatex(s) == s
  {
    OrdinaryEscape(s);
    BoldCopies(s, |s|);
    ItalicCopies(s, |s|);
    assert s[..|s|] == s && s + "" == s && BoldSub("") == ItalicSub("") == "";
    NoOccurrence(s, '_', "\\_");
  }

  lemma {:induction false} OrdinaryEscape(s: string)
    requires forall c <- s :: LatexSpecial(c) == [c]
    ensures EscapeLatex(s) == s
  {
    if s != "" {
      OrdinaryEscape(s[1..]);
    }
  }

  lemma StripStays(s: string)
    requires s != "" && !IsSpace(s[0]) && !IsSpace(s[|s| - 1])
    ensures Strip(s) == LStrip(s) == s
  {
  }

  lemma OneLineText(s: string)
    requires s != "" && forall c <- s :: !IsLineBreak(c)
    ensures SplitLines(s) == [s]
  {
    hide IsLineBreak;
    assert FirstBreak(s) == |s|;
  }

  lemma BulletBlock(text: string, isDigit: char -> bool)
    requires text != "" && !IsSpace(text[0])
    ensures BlockOf("- " + text, isDigit) == Listed(Itemize, text)
  {
    var s := "- " + text;
    assert s[1..] == " " + text && s[1..][1..] == text;
    assert LStrip(s[1..]) == LStrip(text) == text;
  }

  lemma DashLine(text: string)
    requires text != "" && !IsSpace(text[|text| - 1]) && forall c <- text :: !IsLineBreak(c)
    ensures var s := "- " + text; s != "" && !IsSpace(s[0]) && !IsSpace(s[|s| - 1]) && forall c <- s :: !IsLineBreak(c)
  {
  }

  lemma OneBullet(text: string, isDigit: char -> bool)
    requires text != "" && !IsSpace(text[0]) && !IsSpace(text[|text| - 1]) && forall c <- text :: !IsLineBreak(c)
    ensures Blocks(SplitLines("- " + text), isDigit) == [Listed(Itemize, text)]
  {
    hide BlockOf, Strip, LStrip, SplitLines, IsLineBreak, IsSpace;
    DashLine(text);
    OneLineText("- " + text);
    StripStays("- " + text);
    BulletBlock(text, isDigit);
    OneBlock("- " + text, isDigit);
  }

  lemma OneBlock(line: string, isDigit: char -> bool)
    ensures Blocks([line], isDigit) == [BlockOf(Strip(line), isDigit)]
  {
    hide BlockOf, Strip;
    var one := [line];
    assert one[1..] == [];
    assert Blocks(one, isDigit) == [BlockOf(Strip(line), isDigit)] + Blocks(one[1..], isDigit);
  }

  lemma OneBulletLines(text: string)
    ensures Grouped([Listed(Itemize, text)]) == [Begin(Itemize), Entry(text), End(Itemize)]
  {
    var b := Listed(Itemize, text);
    assert [b] + [] == [b];
    RestStays(b, []);
    RestCloses([], Some(Itemize));
    assert Rest([], None) == [];
    hide RunLength, Entries;
    assert [LineOf(b)] + ([End(Itemize)] + []) == [Entry(text), End(Itemize)];
  }

  /** The only lines of a body with one list line. */
  function OneItem(text: string): string {
    Latex(Begin(Itemize)) + ("\n" + (Latex(Entry(text)) + ("\n" + Latex(End(Itemize)))))
  }

  lemma OneBulletBody(text: string)
    ensures BodyOf([Begin(Itemize), Entry(text), End(Itemize)]) == OneItem(text)
  {
    hide Latex, BodyOf;
    var ends := [End(Itemize)];
    BodyStep(Begin(Itemize), [Entry(text), End(Itemize)]);
    BodyStep(Entry(text), ends);
    BodyStep(End(Itemize), []);
    assert [Begin(Itemize)] + [Entry(text), End(Itemize)] == [Begin(Itemize), Entry(text), End(Itemize)];
    assert [Entry(text)] + ends == [Entry(text), End(Itemize)] && ends + [] == ends;
    assert Latex(End(Itemize)) + "" == Latex(End(Itemize));
  }

  /** The body of one list line that starts with a bracket. */
  lemma BracketWitness(text: string, isDigit: char -> bool)
    requires text != "" && text[0] == '[' && text[|text| - 1] == 'a' && forall c <- text :: c in "[x] a"
    ensures Body("- " + text, isDigit) == OneItem(text) && Latex(Entry(text)) == "\\item " + text
    ensures var body := Body("- " + text, isDigit);
      && ReadTex(body, Place(0, None)) != ReadBody(body, Place(0, None))
      && (ReadTex(body, Place(0, None)).None? || HasLabel(ReadTex(body, Place(0, None)).value.tokens))
  {
    hide ReadTex, ReadBody, HasLabel, Blocks, SplitLines, InlineToLatex, Grouped, OneItem, BodyOf;
    OrdinaryCharacters(text);
    OrdinaryText(text);
    OneBullet(text, isDigit);
    OneBulletLines(text);
    OneBulletBody(text);
    BodyIsGrouped("- " + text, isDigit);
    var blocks := Blocks(SplitLines("- " + text), isDigit);
    assert StartsWithBracket(blocks[0]);
    ReadsAsMeantIff("- " + text, isDigit);
  }

  lemma OrdinaryCharacters(text: string)
    requires forall c <- text :: c in "[x] a"
    ensures forall c <- text :: LatexSpecial(c) == [c] && !IsDelimiter(c) && !IsLineBreak(c)
  {
  }

  lemma BodyIsGrouped(content: string, isDigit: char -> bool)
    ensures Body(content, isDigit) == BodyOf(Grouped(Blocks(SplitLines(content), isDigit)))
  {
  }

  lemma NoClosingBracket(text: string)
    requires ']' !in text && Latex(Entry(text)) == "\\item " + text
    ensures ']' !in OneItem(text)
  {
    assert ']' !in Latex(Begin(Itemize)) && ']' !in Latex(End(Itemize)) && ']' !in "\\item ";
    hide Latex;
  }

  /** `- [a` becomes an item whose label never ends: the body does not compile. */
  lemma UnclosedLabelFails(isDigit: char -> bool)
    ensures ReadTex(Body("- " + "[a", isDigit), Place(0, None)).None?
  {
    hide ReadTex, ReadBody, HasLabel, Body, OneItem, Latex;
    BracketWitness("[a", isDigit);
    NoClosingBracket("[a");
    LabelNeedsBracket(OneItem("[a"), Place(0, None));
  }

  /** `- [x] a` is read otherwise than it is meant: LaTeX takes "x" for the label of the item. */
  lemma ClosedLabelIsTaken(isDigit: char -> bool)
    ensures var body := Body("- " + "[x] a", isDigit); ReadTex(body, Place(0, None)) != ReadBody(body, Place(0, None))
  {
    hide ReadTex, ReadBody, HasLabel, Body, OneItem, Latex;
    BracketWitness("[x] a", isDigit);
  }
}
