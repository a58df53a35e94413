/**
 One line of Markdown text to LaTeX: staged escaping and regex rewriting, and a
 reader that shows what the result says and that it is balanced.
 */
module InlineLatex {
  import opened Options
  import opened Strings

  // ---- the rewriting ----------------------------------------------------------------------

  function LatexSpecial(c: char): string {
    if c == '\\' then "\\textbackslash{}"
    else if c == '~' then "\\textasciitilde{}"
    else if c == '^' then "\\textasciicircum{}"
    else if c in "&%$#{}" then ['\\', c]
    else [c]
  }

  function EscapeLatex(s: string): string {
    if s == "" then "" else LatexSpecial(s[0]) + EscapeLatex(s[1..])
  }

  /** The end of `\*\*(.+?)\*\*` at the start of `s`: the first `**` at `j` or later, on the same line. */
  function BoldEnd(s: string, j: nat): (end: Option<nat>)
    requires 3 <= j <= |s|
    ensures end.Some? ==> j <= end.value && end.value + 2 <= |s| && s[end.value] == s[end.value + 1] == '*'
    decreases |s| - j
  {
    if s[j - 1] == '\n' then None
    else if j + 2 <= |s| && s[j] == '*' && s[j + 1] == '*' then Some(j)
    else if j < |s| then BoldEnd(s, j + 1)
    else None
  }

  predicate BoldAt(s: string) {
    |s| >= 3 && s[0] == s[1] == '*' && BoldEnd(s, 3).Some?
  }

  /** `_BOLD_RE.sub` */
  function BoldSub(s: string): string
    decreases |s|
  {
    if s == "" then ""
    else if BoldAt(s) then
      var j := BoldEnd(s, 3).value;
      "\\textbf{" + s[2..j] + "}" + BoldSub(s[j + 2..])
    else [s[0]] + BoldSub(s[1..])
  }

  /** The end of `d(.+?)d` at the start of `s`. */
  function ItalicEnd(s: string, d: char, j: nat): (end: Option<nat>)
    requires 2 <= j <= |s|
    ensures end.Some? ==> j <= end.value < |s| && s[end.value] == d
    decreases |s| - j
  {
    if s[j - 1] == '\n' then None
    else if j < |s| && s[j] == d then Some(j)
    else if j < |s| then ItalicEnd(s, d, j + 1)
    else None
  }

  predicate ItalicAt(s: string) {
    |s| >= 2 && (s[0] == '*' || s[0] == '_') && ItalicEnd(s, s[0], 2).Some?
  }

  /** `_ITALIC_RE.sub` */
  function ItalicSub(s: string): string
    decreases |s|
  {
    if s == "" then ""
    else if ItalicAt(s) then
      var j := ItalicEnd(s, s[0], 2).value;
      "\\textit{" + s[1..j] + "}" + ItalicSub(s[j + 1..])
    else [s[0]] + ItalicSub(s[1..])
  }

  function InlineToLatex(text: string): string {
    Replace(ItalicSub(BoldSub(EscapeLatex(text))), '_', "\\_")
  }

  // ---- the reader -------------------------------------------------------------------------

  /** The brace depth at the end, the characters read with the Markdown delimiters left out, and the
      number of delimiters: those read as text and those that each group stands for. */
  datatype Reading = Reading(depth: nat, text: string, marks: nat)

  predicate IsDelimiter(c: char) {
    c == '*' || c == '_'
  }

  /** The one named command that `s` can start with. */
  function CommandOf(s: string): string
    requires |s| >= 8
  {
    if s[5] == 'i' then "\\textit{"
    else if s[5] == 'b' && s[6] == 'f' then "\\textbf{"
    else if s[5] == 'b' then "\\textbackslash{}"
    else if |s| > 10 && s[10] == 't' then "\\textasciitilde{}"
    else "\\textasciicircum{}"
  }

  function CommandText(command: string): string {
    if command == "\\textbackslash{}" then "\\"
    else if command == "\\textasciitilde{}" then "~"
    else if command == "\\textasciicircum{}" then "^"
    else ""
  }

  /** The delimiters around a bold or an italic span. */
  function MarksOf(command: string): nat {
    if command == "\\textbf{" then 4 else if command == "\\textit{" then 2 else 0
  }

  predicate OpensGroup(command: string) {
    command == "\\textit{" || command == "\\textbf{"
  }

  function Said(text: string, marks: nat, r: Option<Reading>): Option<Reading> {
    if r.None? then None else Some(Reading(r.value.depth, text + r.value.text, marks + r.value.marks))
  }

  /** How many characters the first move of the reader takes, and what it does. */
  datatype Move = Move(length: nat, text: string, marks: nat, up: int)

  /** There is none on a command the reader does not know, on a bare `& % $ # ~ ^`, and when `strict`
      on a bare underscore. */
  function FirstMove(s: string, strict: bool): (m: Option<Move>)
    requires s != ""
    ensures m.Some? ==> 0 < m.value.length <= |s| && -1 <= m.value.up <= 1
  {
    if s[0] == '\\' then
      if |s| < 2 then None
      else if s[1] in "&%$#{}" then Some(Move(2, [s[1]], 0, 0))
      else if s[1] == '_' && strict then Some(Move(2, "", 1, 0))
      else if s[1] == 't' && |s| >= 8 && CommandOf(s) <= s then
        Some(Move(|CommandOf(s)|, CommandText(CommandOf(s)), MarksOf(CommandOf(s)),
                  if OpensGroup(CommandOf(s)) then 1 else 0))
      else None
    else if s[0] == '{' then Some(Move(1, "", 0, 1))
    else if s[0] == '}' then Some(Move(1, "", 0, -1))
    else if s[0] in "&%$#~^" || (strict && s[0] == '_') then None
    else if IsDelimiter(s[0]) then Some(Move(1, "", 1, 0))
    else Some(Move(1, [s[0]], 0, 0))
  }

  /** Reads `s` from brace depth `d`; a closing brace at depth 0 fails. */
  function Read(s: string, d: nat, strict: bool): Option<Reading>
    decreases |s|
  {
    if s == "" then Some(Reading(d, "", 0))
    else
      var m := FirstMove(s, strict);
      if m.None? || d + m.value.up < 0 then None
      else Said(m.value.text, m.value.marks, Read(s[m.value.length..], d + m.value.up, strict))
  }

  function Delimiters(s: string): nat {
    if s == "" then 0 else (if IsDelimiter(s[0]) then 1 else 0) + Delimiters(s[1..])
  }

  function Letters(s: string): string {
    if s == "" then "" else (if IsDelimiter(s[0]) then "" else [s[0]]) + Letters(s[1..])
  }

  // ---- the reader on concatenations -------------------------------------------------------

  lemma SaidTwice(a: string, m: nat, b: string, n: nat, r: Option<Reading>)
    ensures Said(a, m, Said(b, n, r)) == Said(a + b, m + n, r)
  {
    if r.Some? {
      assert a + (b + r.value.text) == (a + b) + r.value.text;
    }
  }

  lemma MoveUnaffected(a: string, b: string, strict: bool)
    requires a != "" && FirstMove(a, strict).Some?
    ensures FirstMove(a + b, strict) == FirstMove(a, strict)
  {
    if a[0] == '\\' && a[1] == 't' {
      var c := CommandOf(a);
      assert |c| <= |a| && (a + b)[..|c|] == a[..|c|];
    }
  }

  lemma {:induction false} ReadConcat(a: string, b: string, d: nat, strict: bool)
    requires Read(a, d, strict).Some?
    ensures var r := Read(a, d, strict).value; Read(a + b, d, strict) == Said(r.text, r.marks, Read(b, r.depth, strict))
    decreases |a|
  {
    hide FirstMove;
    if a == "" {
      assert a + b == b;
      var r := Read(b, d, strict);
      assert r.Some? ==> "" + r.value.text == r.value.text;
    } else {
      MoveUnaffected(a, b, strict);
      var m := FirstMove(a, strict).value;
      var rest := a[m.length..];
      assert (a + b)[m.length..] == rest + b;
      ReadConcat(rest, b, d + m.up, strict);
      var r := Read(rest, d + m.up, strict).value;
      SaidTwice(m.text, m.marks, r.text, r.marks, Read(b, r.depth, strict));
    }
  }

  /** A text can be read if its first move can be made and the rest be read. */
  lemma ReadableIff(s: string, d: nat)
    requires s != ""
    ensures Read(s, d, false).Some? <==>
            && FirstMove(s, false).Some? && d + FirstMove(s, false).value.up >= 0
            && Read(s[FirstMove(s, false).value.length..], d + FirstMove(s, false).value.up, false).Some?
  {
    hide FirstMove;
  }

  lemma DropFront(a: string, n: nat, c: char, b: string)
    requires n <= |a|
    ensures (a + [c] + b)[n..] == a[n..] + [c] + b
  {
  }

  lemma EmptyIsReadable(d: nat)
    ensures Read("", d, false).Some?
  {
  }

  lemma FirstMoveBefore(a: string, c: char, b: string, d: nat) returns (m: Move)
    requires a != "" && IsDelimiter(c) && Read(a + [c] + b, d, false).Some?
    ensures FirstMove(a, false) == Some(m) && m.length <= |a| && d + m.up >= 0
    ensures Read(a[m.length..] + [c] + b, d + m.up, false).Some?
  {
    hide Read, FirstMove, IsDelimiter;
    ReadableIff(a + [c] + b, d);
    MoveWithin(a, c, b);
    m := FirstMove(a, false).value;
    DropFront(a, m.length, c, b);
  }

  /** A Markdown delimiter never sits inside a command, so what comes before one can be read by itself. */
  lemma {:induction false} ReadBefore(a: string, c: char, b: string, d: nat)
    requires IsDelimiter(c) && Read(a + [c] + b, d, false).Some?
    ensures Read(a, d, false).Some?
    decreases |a|
  {
    hide Read, FirstMove, IsDelimiter;
    if a == "" {
      EmptyIsReadable(d);
    } else {
      var m := FirstMoveBefore(a, c, b, d);
      ReadBefore(a[m.length..], c, b, d + m.up);
      ReadableIff(a, d);
    }
  }

  lemma MoveWithin(a: string, c: char, b: string)
    requires a != "" && IsDelimiter(c) && FirstMove(a + [c] + b, false).Some?
    ensures FirstMove(a, false) == FirstMove(a + [c] + b, false)
    ensures FirstMove(a, false).value.length <= |a|
  {
    var s := a + [c] + b;
    var n := FirstMove(s, false).value.length;
    assert s[|a|] == c;
    if |a| < n {
      assert s[0] == '\\';
      if s[1] == 't' {
        var k := CommandOf(s);
        assert k[|a|] == s[..n][|a|] == c;
        NoDelimiterInCommand(s);
      }
      assert false;
    }
    assert s[..n] == a[..n];
  }

  lemma NoDelimiterInCommand(s: string)
    requires |s| >= 8
    ensures forall c <- CommandOf(s) :: !IsDelimiter(c)
  {
  }

  lemma {:induction false} ReadDeeper(s: string, d: nat, strict: bool)
    requires Read(s, d, strict).Some?
    ensures var r := Read(s, d, strict).value; Read(s, d + 1, strict) == Some(r.(depth := r.depth + 1))
    decreases |s|
  {
    hide FirstMove;
    if s != "" {
      var m := FirstMove(s, strict).value;
      ReadDeeper(s[m.length..], d + m.up, strict);
    }
  }

  // ---- the stages -------------------------------------------------------------------------

  /** A text that is one move of the reader. */
  lemma ReadOneMove(s: string, m: Move, d: nat, strict: bool)
    requires s != "" && FirstMove(s, strict) == Some(m) && m.length == |s| && d + m.up >= 0
    ensures Read(s, d, strict) == Some(Reading(d + m.up, m.text, m.marks))
  {
    hide FirstMove;
    assert s[m.length..] == "";
    assert m.text + "" == m.text;
  }

  predicate IsCommand(s: string) {
    OpensGroup(s) || s == "\\textbackslash{}" || s == "\\textasciitilde{}" || s == "\\textasciicircum{}"
  }

  lemma CommandMove(s: string, strict: bool)
    requires IsCommand(s)
    ensures FirstMove(s, strict) == Some(Move(|s|, CommandText(s), MarksOf(s), if OpensGroup(s) then 1 else 0))
  {
    assert CommandOf(s) == s;
  }

  lemma SpecialMove(c: char)
    ensures FirstMove(LatexSpecial(c), false) == Some(Move(|LatexSpecial(c)|, Letters([c]), Delimiters([c]), 0))
  {
    SingleLetter(c);
    if c == '\\' || c == '~' || c == '^' {
      CommandMove(LatexSpecial(c), false);
    }
  }

  lemma SingleLetter(c: char)
    ensures Letters([c]) == if IsDelimiter(c) then "" else [c]
    ensures Delimiters([c]) == if IsDelimiter(c) then 1 else 0
  {
    assert [c][1..] == "";
  }

  lemma ReadSpecial(c: char, d: nat)
    ensures Read(LatexSpecial(c), d, false) == Some(Reading(d, Letters([c]), Delimiters([c])))
  {
    hide FirstMove;
    SpecialMove(c);
    SingleLetter(c);
    ReadOneMove(LatexSpecial(c), FirstMove(LatexSpecial(c), false).value, d, false);
  }

  /** Escaping is balanced, leaves nothing bare, and reads back as the text. */
  lemma {:induction false} ReadEscaped(s: string, d: nat)
    ensures Read(EscapeLatex(s), d, false) == Some(Reading(d, Letters(s), Delimiters(s)))
  {
    hide LatexSpecial, FirstMove;
    if s != "" {
      hide Read;
      ReadSpecial(s[0], d);
      ReadEscaped(s[1..], d);
      ReadConcat(LatexSpecial(s[0]), EscapeLatex(s[1..]), d, false);
      SingleLetter(s[0]);
    }
  }

  predicate IsMark(mark: string) {
    mark == "**" || mark == "*" || mark == "_"
  }

  lemma ReadDelimiter(c: char, d: nat)
    requires IsDelimiter(c)
    ensures Read([c], d, false) == Some(Reading(d, "", 1))
  {
    ReadOneMove([c], Move(1, "", 1, 0), d, false);
  }

  lemma ReadMark(mark: string, rest: string, d: nat)
    requires IsMark(mark)
    ensures Read(mark + rest, d, false) == Said("", |mark|, Read(rest, d, false))
  {
    hide Read, FirstMove;
    ReadDelimiter(mark[0], d);
    if mark == "**" {
      assert mark + rest == ['*'] + (['*'] + rest);
      ReadConcat(['*'], ['*'] + rest, d, false);
      ReadConcat(['*'], rest, d, false);
      SaidTwice("", 1, "", 1, Read(rest, d, false));
      assert "" + "" == "";
    } else {
      assert mark == [mark[0]];
      ReadConcat(mark, rest, d, false);
    }
  }

  lemma ReadOpening(command: string, d: nat)
    requires OpensGroup(command)
    ensures Read(command, d, false) == Some(Reading(d + 1, "", MarksOf(command)))
  {
    hide FirstMove;
    CommandMove(command, false);
    ReadOneMove(command, Move(|command|, "", MarksOf(command), 1), d, false);
  }

  lemma ReadClosing(d: nat)
    ensures Read("}", d + 1, false) == Some(Reading(d, "", 0))
  {
    ReadOneMove("}", Move(1, "", 0, -1), d + 1, false);
  }

  /** Wherever `rest` can be read, `after` reads the same. */
  ghost predicate ReadsSame(rest: string, after: string) {
    forall e: nat :: Read(rest, e, false).Some? ==> Read(after, e, false) == Read(rest, e, false)
  }

  /** Turning a pair of marks into a group moves no text and leaves every depth outside it alone,
      whatever groups the marks cut across. */
  lemma MarksToGroup(mark: string, inner: string, rest: string, after: string, command: string, d: nat)
    requires IsMark(mark) && OpensGroup(command) && MarksOf(command) == 2 * |mark|
    requires Read(mark + inner + mark + rest, d, false).Some?
    requires ReadsSame(rest, after)
    ensures Read(command + inner + "}" + after, d, false) == Read(mark + inner + mark + rest, d, false)
  {
    hide Read, FirstMove;
    assert mark + inner + mark + rest == mark + (inner + mark + rest);
    ReadMark(mark, inner + mark + rest, d);
    assert inner + mark + rest == inner + [mark[0]] + (mark[1..] + rest);
    ReadBefore(inner, mark[0], mark[1..] + rest, d);
    var r := Read(inner, d, false).value;
    assert inner + mark + rest == inner + (mark + rest);
    ReadConcat(inner, mark + rest, d, false);
    ReadMark(mark, rest, r.depth);

    ReadOpening(command, d);
    ReadDeeper(inner, d, false);
    ReadClosing(r.depth);
    assert command + inner + "}" + after == command + (inner + ("}" + after));
    ReadConcat(command, inner + ("}" + after), d, false);
    ReadConcat(inner, "}" + after, d + 1, false);
    ReadConcat("}", after, r.depth + 1, false);
    SaidNothing(Read(after, r.depth, false));
    SaidAround(|mark|, r.text, r.marks, Read(rest, r.depth, false));
  }

  lemma SaidAround(n: nat, text: string, marks: nat, r: Option<Reading>)
    ensures Said("", n, Said(text, marks, Said("", n, r))) == Said("", 2 * n, Said(text, marks, r))
  {
    if r.Some? {
      assert text + ("" + r.value.text) == text + r.value.text;
    }
  }

  lemma SaidNothing(r: Option<Reading>)
    ensures Said("", 0, r) == r
  {
    if r.Some? {
      assert "" + r.value.text == r.value.text;
    }
  }

  /** Copying characters up to the end of one reader move. */
  lemma {:induction false} BoldKeepsMove(s: string)
    requires s != "" && !BoldAt(s) && FirstMove(s, false).Some?
    ensures var n := FirstMove(s, false).value.length; BoldSub(s) == s[..n] + BoldSub(s[n..])
  {
    var n := FirstMove(s, false).value.length;
    if n > 1 {
      assert s[0] == '\\';
      if s[1] == 't' {
        NoDelimiterInCommand(s);
        assert forall i :: 0 <= i < n ==> s[i] == CommandOf(s)[i];
      }
      BoldCopies(s, n);
    } else {
      assert s[..1] == [s[0]];
    }
  }

  lemma CopiesPlain(s: string)
    requires s != "" && !IsDelimiter(s[0])
    ensures BoldSub(s) == [s[0]] + BoldSub(s[1..]) && ItalicSub(s) == [s[0]] + ItalicSub(s[1..])
  {
  }

  lemma {:induction false} BoldCopies(s: string, n: nat)
    requires n <= |s| && forall i :: 0 <= i < n ==> !IsDelimiter(s[i])
    ensures BoldSub(s) == s[..n] + BoldSub(s[n..])
  {
    hide BoldSub, IsDelimiter;
    if n == 0 {
      assert s[0..] == s;
    } else {
      CopiesPlain(s);
      BoldCopies(s[1..], n - 1);
      assert s[..n] == [s[0]] + s[1..][..n - 1] && s[1..][n - 1..] == s[n..];
    }
  }

  lemma {:induction false} ItalicCopies(s: string, n: nat)
    requires n <= |s| && forall i :: 0 <= i < n ==> !IsDelimiter(s[i])
    ensures ItalicSub(s) == s[..n] + ItalicSub(s[n..])
  {
    hide ItalicSub, IsDelimiter;
    if n == 0 {
      assert s[0..] == s;
    } else {
      CopiesPlain(s);
      ItalicCopies(s[1..], n - 1);
      assert s[..n] == [s[0]] + s[1..][..n - 1] && s[1..][n - 1..] == s[n..];
    }
  }

  lemma {:induction false} ItalicKeepsMove(s: string)
    requires s != "" && !ItalicAt(s) && FirstMove(s, false).Some?
    ensures var n := FirstMove(s, false).value.length; ItalicSub(s) == s[..n] + ItalicSub(s[n..])
  {
    var n := FirstMove(s, false).value.length;
    if n > 1 {
      assert s[0] == '\\';
      if s[1] == 't' {
        NoDelimiterInCommand(s);
        assert forall i :: 0 <= i < n ==> s[i] == CommandOf(s)[i];
      }
      ItalicCopies(s, n);
    } else {
      assert s[..1] == [s[0]];
    }
  }

  lemma MoveAlone(s: string, strict: bool)
    requires s != "" && FirstMove(s, strict).Some?
    ensures FirstMove(s[..FirstMove(s, strict).value.length], strict) == FirstMove(s, strict)
  {
  }

  /** The same first move and the same reading after it. */
  lemma SameMoveSameReading(s: string, t: string, m: Move, after: string, d: nat)
    requires s != "" && t != "" && FirstMove(s, false) == FirstMove(t, false) == Some(m) && m.length <= |t|
    requires d + m.up >= 0 && t[m.length..] == after
    requires Read(after, d + m.up, false) == Read(s[m.length..], d + m.up, false)
    ensures Read(t, d, false) == Read(s, d, false)
  {
    hide FirstMove;
  }

  /** One reader move in front of what reads the same. */
  lemma MoveThenSame(s: string, m: Move, after: string, d: nat)
    requires s != "" && FirstMove(s, false) == Some(m) && d + m.up >= 0 && m.length <= |s|
    requires Read(after, d + m.up, false) == Read(s[m.length..], d + m.up, false)
    ensures Read(s[..m.length] + after, d, false) == Read(s, d, false)
  {
    hide FirstMove;
    var head := s[..m.length];
    MoveAlone(s, false);
    MoveUnaffected(head, after, false);
    SameMoveSameReading(s, head + after, m, after, d);
  }

  lemma {:induction false} ReadBold(s: string, d: nat)
    requires Read(s, d, false).Some?
    ensures Read(BoldSub(s), d, false) == Read(s, d, false)
    decreases |s|
  {
    hide FirstMove, BoldAt, IsMark, OpensGroup;
    if s == "" {
    } else if BoldAt(s) {
      var j := BoldEndOf(s);
      var inner, rest := s[2..j], s[j + 2..];
      forall e: nat | Read(rest, e, false).Some?
        ensures Read(BoldSub(rest), e, false) == Read(rest, e, false)
      {
        ReadBold(rest, e);
      }
      BoldGroup(s, j, d);
    } else {
      var m := FirstMove(s, false).value;
      ReadBold(s[m.length..], d + m.up);
      BoldKeepsMove(s);
      MoveThenSame(s, m, BoldSub(s[m.length..]), d);
    }
  }

  lemma BoldEndOf(s: string) returns (j: nat)
    requires BoldAt(s)
    ensures 3 <= j && j + 2 <= |s| && s == "**" + s[2..j] + "**" + s[j + 2..]
    ensures BoldSub(s) == "\\textbf{" + s[2..j] + "}" + BoldSub(s[j + 2..])
  {
    j := BoldEnd(s, 3).value;
  }

  lemma BoldGroup(s: string, j: nat, d: nat)
    requires 3 <= j && j + 2 <= |s| && s == "**" + s[2..j] + "**" + s[j + 2..]
    requires BoldSub(s) == "\\textbf{" + s[2..j] + "}" + BoldSub(s[j + 2..])
    requires Read(s, d, false).Some?
    requires ReadsSame(s[j + 2..], BoldSub(s[j + 2..]))
    ensures Read(BoldSub(s), d, false) == Read(s, d, false)
  {
    hide Read, FirstMove, BoldSub;
    MarksToGroup("**", s[2..j], s[j + 2..], BoldSub(s[j + 2..]), "\\textbf{", d);
  }

  lemma {:induction false} ReadItalic(s: string, d: nat)
    requires Read(s, d, false).Some?
    ensures Read(ItalicSub(s), d, false) == Read(s, d, false)
    decreases |s|
  {
    hide FirstMove, ItalicAt, IsMark, OpensGroup;
    if s == "" {
    } else if ItalicAt(s) {
      var j := ItalicEndOf(s);
      var rest := s[j + 1..];
      forall e: nat | Read(rest, e, false).Some?
        ensures Read(ItalicSub(rest), e, false) == Read(rest, e, false)
      {
        ReadItalic(rest, e);
      }
      ItalicGroup(s, j, d);
    } else {
      var m := FirstMove(s, false).value;
      ReadItalic(s[m.length..], d + m.up);
      ItalicKeepsMove(s);
      MoveThenSame(s, m, ItalicSub(s[m.length..]), d);
    }
  }

  lemma ItalicEndOf(s: string) returns (j: nat)
    requires ItalicAt(s)
    ensures 2 <= j < |s| && IsDelimiter(s[0]) && s == [s[0]] + s[1..j] + [s[0]] + s[j + 1..]
    ensures ItalicSub(s) == "\\textit{" + s[1..j] + "}" + ItalicSub(s[j + 1..])
  {
    j := ItalicEnd(s, s[0], 2).value;
  }

  lemma ItalicGroup(s: string, j: nat, d: nat)
    requires 2 <= j < |s| && IsDelimiter(s[0]) && s == [s[0]] + s[1..j] + [s[0]] + s[j + 1..]
    requires ItalicSub(s) == "\\textit{" + s[1..j] + "}" + ItalicSub(s[j + 1..])
    requires Read(s, d, false).Some?
    requires ReadsSame(s[j + 1..], ItalicSub(s[j + 1..]))
    ensures Read(ItalicSub(s), d, false) == Read(s, d, false)
  {
    hide Read, FirstMove, ItalicSub;
    MarksToGroup([s[0]], s[1..j], s[j + 1..], ItalicSub(s[j + 1..]), "\\textit{", d);
  }

  /** The last stage: underscores that are left become text. */
  lemma {:induction false} ReadUnderscores(s: string, d: nat)
    requires Read(s, d, false).Some?
    ensures Read(Replace(s, '_', "\\_"), d, true) == Read(s, d, false)
    decreases |s|
  {
    hide FirstMove;
    if s != "" {
      var m := FirstMove(s, false).value;
      ReadUnderscores(s[m.length..], d + m.up);
      assert s == s[..m.length] + s[m.length..];
      ReplaceConcat(s[..m.length], s[m.length..], '_', "\\_");
      UnderscoreMove(s, Replace(s[m.length..], '_', "\\_"));
    }
  }

  lemma UnderscoreMove(s: string, after: string)
    requires s != "" && FirstMove(s, false).Some?
    ensures var m := FirstMove(s, false).value;
      var t := Replace(s[..m.length], '_', "\\_") + after;
      t != "" && FirstMove(t, true).Some? && FirstMove(t, true).value.text == m.text &&
          FirstMove(t, true).value.marks == m.marks
      && FirstMove(t, true).value.up == m.up
      && t[FirstMove(t, true).value.length..] == after
  {
    var m := FirstMove(s, false).value;
    var head := s[..m.length];
    if s[0] == '_' {
      assert head == "_" && head[1..] == "";
      assert Replace(head, '_', "\\_") == "\\_" + "" == "\\_";
    } else {
      MoveWithoutUnderscore(s);
      hide FirstMove;
      NoOccurrence(head, '_', "\\_");
      MoveUnaffected(head, after, true);
      assert (head + after)[m.length..] == after;
    }
  }

  lemma MoveWithoutUnderscore(s: string)
    requires s != "" && s[0] != '_' && FirstMove(s, false).Some?
    ensures var m := FirstMove(s, false); var head := s[..m.value.length]; '_' !in head && FirstMove(head, true) == m
  {
    MoveAlone(s, false);
    if s[0] == '\\' && s[1] == 't' {
      NoDelimiterInCommand(s);
    }
  }

  /** Whatever the text, and however its bold and italic spans cross: the LaTeX is balanced with no
      closing brace too many, has no special character bare, and reads back as the text; of its
      asterisks and underscores four went into every bold group, two into every italic one, and the rest are text. */
  lemma InlineReadsBack(text: string, d: nat)
    ensures Read(InlineToLatex(text), d, true) == Some(Reading(d, Letters(text), Delimiters(text)))
  {
    var escaped := EscapeLatex(text);
    ReadEscaped(text, d);
    ReadBold(escaped, d);
    ReadItalic(BoldSub(escaped), d);
    ReadUnderscores(ItalicSub(BoldSub(escaped)), d);
  }
}
