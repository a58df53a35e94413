/**
 Where the asterisks and underscores of a line end up: a reader of the rewritten
 line that tells every one that stayed text and every group that replaced some.
 */
module InlineMarks {
  import opened Options
  import opened Strings
  import opened InlineLatex

  datatype Piece = Letter(c: char) | Mark(c: char) | Opened(marks: nat) | Closed

  /** What one move of the reader meets; `marks` of an opened group is twice the length of its mark. */
  function PieceOf(s: string, m: Move): seq<Piece>
    requires s != ""
  {
    if m.up == 1 then [Opened(m.marks)]
    else if m.up == -1 then [Closed]
    else if m.marks == 1 then [Mark(if s[0] == '\\' then '_' else s[0])]
    else AsLetters(m.text)
  }

  function AsLetters(text: string): (p: seq<Piece>)
    ensures |p| == |text|
  {
    seq(|text|, i requires 0 <= i < |text| => Letter(text[i]))
  }

  function After(pieces: seq<Piece>, r: Option<seq<Piece>>): Option<seq<Piece>> {
    if r.None? then None else Some(pieces + r.value)
  }

  /** The pieces of a text, if the reader knows all of its commands. */
  function Pieces(s: string, strict: bool): Option<seq<Piece>>
    decreases |s|
  {
    if s == "" then Some([])
    else
      var m := FirstMove(s, strict);
      if m.None? then None else After(PieceOf(s, m.value), Pieces(s[m.value.length..], strict))
  }

  /** A text as it stands: its marks and everything else. */
  function Plain(text: string): seq<Piece> {
    if text == "" then []
    else [if IsDelimiter(text[0]) then Mark(text[0]) else Letter(text[0])] + Plain(text[1..])
  }

  predicate StartsWithStars(p: seq<Piece>) {
    |p| >= 2 && p[0] == p[1] == Mark('*')
  }

  /** `fine` says what `coarse` says, piece by piece, except that some marks have become the start or the
      end of a group: two asterisks of a bold one, an asterisk or an underscore of an italic one. */
  predicate Refines(fine: seq<Piece>, coarse: seq<Piece>)
    decreases |fine|
  {
    if fine == [] then coarse == []
    else
      || (coarse != [] && coarse[0] == fine[0] && Refines(fine[1..], coarse[1..]))
      || ((fine[0] == Opened(4) || fine[0] == Closed) && StartsWithStars(coarse) && Refines(fine[1..], coarse[2..]))
      || ((fine[0] == Opened(2) || fine[0] == Closed) && coarse != [] && coarse[0].Mark? &&
          Refines(fine[1..], coarse[1..]))
  }

  // ---- the relation -----------------------------------------------------------------------

  lemma {:induction false} RefinesItself(p: seq<Piece>)
    ensures Refines(p, p)
  {
    if p != [] {
      RefinesItself(p[1..]);
    }
  }

  lemma {:induction false} RefinesConcat(a: seq<Piece>, b: seq<Piece>, c: seq<Piece>, d: seq<Piece>)
    requires Refines(a, b) && Refines(c, d)
    ensures Refines(a + c, b + d)
    decreases |a|
  {
    if a == [] {
      assert a + c == c && b + d == d;
    } else {
      assert (a + c)[1..] == a[1..] + c;
      if b != [] {
        assert (b + d)[1..] == b[1..] + d;
      }
      if |b| >= 2 {
        assert (b + d)[2..] == b[2..] + d;
      }
      if b != [] && b[0] == a[0] && Refines(a[1..], b[1..]) {
        RefinesConcat(a[1..], b[1..], c, d);
      } else if (a[0] == Opened(4) || a[0] == Closed) && StartsWithStars(b) && Refines(a[1..], b[2..]) {
        RefinesConcat(a[1..], b[2..], c, d);
      } else {
        RefinesConcat(a[1..], b[1..], c, d);
      }
    }
  }

  /** Marks are refined by nothing but themselves on the way back to the text. */
  lemma MarkRefines(c: seq<Piece>, d: seq<Piece>)
    requires Refines(c, d) && c != [] && c[0].Mark?
    ensures d != [] && d[0] == c[0] && Refines(c[1..], d[1..])
  {
  }

  lemma {:induction false} RefinesTwice(a: seq<Piece>, b: seq<Piece>, c: seq<Piece>)
    requires Refines(a, b) && Refines(b, c)
    ensures Refines(a, c)
    decreases |a|
  {
    if a == [] {
    } else if b != [] && b[0] == a[0] && Refines(a[1..], b[1..]) {
      if c != [] && c[0] == b[0] && Refines(b[1..], c[1..]) {
        RefinesTwice(a[1..], b[1..], c[1..]);
      } else if (b[0] == Opened(4) || b[0] == Closed) && StartsWithStars(c) && Refines(b[1..], c[2..]) {
        RefinesTwice(a[1..], b[1..], c[2..]);
      } else {
        RefinesTwice(a[1..], b[1..], c[1..]);
      }
    } else if (a[0] == Opened(4) || a[0] == Closed) && StartsWithStars(b) && Refines(a[1..], b[2..]) {
      MarkRefines(b, c);
      MarkRefines(b[1..], c[1..]);
      assert b[1..][1..] == b[2..] && c[1..][1..] == c[2..];
      RefinesTwice(a[1..], b[2..], c[2..]);
    } else {
      MarkRefines(b, c);
      RefinesTwice(a[1..], b[1..], c[1..]);
    }
  }

  // ---- the reader on concatenations -------------------------------------------------------

  lemma AfterTwice(a: seq<Piece>, b: seq<Piece>, r: Option<seq<Piece>>)
    ensures After(a, After(b, r)) == After(a + b, r)
  {
    if r.Some? {
      assert a + (b + r.value) == (a + b) + r.value;
    }
  }

  lemma {:induction false} PiecesConcat(a: string, b: string, strict: bool)
    requires Pieces(a, strict).Some?
    ensures Pieces(a + b, strict) == After(Pieces(a, strict).value, Pieces(b, strict))
    decreases |a|
  {
    hide FirstMove;
    if a == "" {
      assert a + b == b;
      assert Pieces(b, strict).Some? ==> [] + Pieces(b, strict).value == Pieces(b, strict).value;
    } else {
      MoveUnaffected(a, b, strict);
      var m := FirstMove(a, strict).value;
      assert (a + b)[m.length..] == a[m.length..] + b;
      PiecesConcat(a[m.length..], b, strict);
      AfterTwice(PieceOf(a, m), Pieces(a[m.length..], strict).value, Pieces(b, strict));
    }
  }

  lemma {:induction false} PiecesBefore(a: string, c: char, b: string)
    requires IsDelimiter(c) && Pieces(a + [c] + b, false).Some?
    ensures Pieces(a, false).Some?
    decreases |a|
  {
    hide FirstMove;
    if a != "" {
      var s := a + [c] + b;
      var m := FirstMove(s, false).value;
      MoveWithin(a, c, b);
      assert s[m.length..] == a[m.length..] + [c] + b;
      PiecesBefore(a[m.length..], c, b);
    }
  }

  lemma OnePiece(s: string, m: Move, strict: bool)
    requires s != "" && FirstMove(s, strict) == Some(m) && m.length == |s|
    ensures Pieces(s, strict) == Some(PieceOf(s, m))
  {
    hide FirstMove;
    assert s[m.length..] == "";
    assert PieceOf(s, m) + [] == PieceOf(s, m);
  }

  // ---- the stages -------------------------------------------------------------------------

  lemma SpecialPiece(c: char)
    ensures Pieces(LatexSpecial(c), false) == Some([if IsDelimiter(c) then Mark(c) else Letter(c)])
  {
    SpecialMove(c);
    SingleLetter(c);
    var s := LatexSpecial(c);
    assert s[0] == (if IsDelimiter(c) then c else s[0]) && (IsDelimiter(c) ==> s[0] != '\\');
    hide FirstMove, LatexSpecial, Letters, Delimiters;
    OnePiece(s, FirstMove(s, false).value, false);
    if !IsDelimiter(c) {
      assert AsLetters([c]) == [Letter(c)];
    }
  }

  lemma {:induction false} EscapedPieces(text: string)
    ensures Pieces(EscapeLatex(text), false) == Some(Plain(text))
  {
    if text != "" {
      SpecialPiece(text[0]);
      EscapedPieces(text[1..]);
      hide Pieces, LatexSpecial;
      PiecesConcat(LatexSpecial(text[0]), EscapeLatex(text[1..]), false);
    }
  }

  function MarkPieces(mark: string): seq<Piece> {
    if mark == "**" then [Mark('*'), Mark('*')] else if mark != "" then [Mark(mark[0])] else []
  }

  lemma MarkIsPieces(mark: string)
    requires IsMark(mark)
    ensures Pieces(mark, false) == Some(MarkPieces(mark))
  {
    if mark == "**" {
      OnePiece("*", Move(1, "", 1, 0), false);
      assert "**" == "*" + "*";
      PiecesConcat("*", "*", false);
      assert [Mark('*')] + [Mark('*')] == [Mark('*'), Mark('*')];
    } else {
      OnePiece(mark, Move(1, "", 1, 0), false);
    }
  }

  lemma GroupPieces(command: string)
    requires OpensGroup(command)
    ensures Pieces(command, false) == Some([Opened(MarksOf(command))]) && Pieces("}", false) == Some([Closed])
  {
    CommandMove(command, false);
    OnePiece("}", Move(1, "", 0, -1), false);
    hide FirstMove;
    OnePiece(command, FirstMove(command, false).value, false);
  }

  /** Whatever `rest` reads as, `after` reads as a refinement of it. */
  ghost predicate PiecesRefine(after: string, rest: string) {
    Pieces(rest, false).Some? ==>
        Pieces(after, false).Some? && Refines(Pieces(after, false).value, Pieces(rest, false).value)
  }

  /** Two marks have become a group. */
  lemma GroupRefines(n: nat, mark: string, inner: seq<Piece>, fine: seq<Piece>, coarse: seq<Piece>)
    requires IsMark(mark) && n == 2 * |mark| && Refines(fine, coarse)
    ensures Refines([Opened(n)] + (inner + ([Closed] + fine)), MarkPieces(mark) + (inner + (MarkPieces(mark) + coarse)))
  {
    RefinesItself(inner);
    EndRefines(Closed, mark, fine, coarse);
    RefinesConcat(inner, inner, [Closed] + fine, MarkPieces(mark) + coarse);
    EndRefines(Opened(n), mark, inner + ([Closed] + fine), inner + (MarkPieces(mark) + coarse));
  }

  lemma EndRefines(end: Piece, mark: string, fine: seq<Piece>, coarse: seq<Piece>)
    requires IsMark(mark) && (end == Closed || end == Opened(2 * |mark|)) && Refines(fine, coarse)
    ensures Refines([end] + fine, MarkPieces(mark) + coarse)
  {
    var all := MarkPieces(mark) + coarse;
    assert ([end] + fine)[1..] == fine;
    if mark == "**" {
      assert all[2..] == coarse;
    } else {
      assert all[1..] == coarse;
    }
  }

  lemma SpanPieces(mark: string, inner: string, rest: string)
    requires IsMark(mark) && Pieces(mark + inner + mark + rest, false).Some?
    ensures Pieces(inner, false).Some? && Pieces(rest, false).Some?
    ensures Pieces(mark + inner + mark + rest, false) ==
            Some(MarkPieces(mark) + (Pieces(inner, false).value + (MarkPieces(mark) + Pieces(rest, false).value)))
  {
    hide Pieces, MarkPieces;
    MarkIsPieces(mark);
    assert mark + inner + mark + rest == mark + (inner + (mark + rest));
    PiecesConcat(mark, inner + (mark + rest), false);
    assert inner + (mark + rest) == inner + [mark[0]] + (mark[1..] + rest);
    PiecesBefore(inner, mark[0], mark[1..] + rest);
    PiecesConcat(inner, mark + rest, false);
    PiecesConcat(mark, rest, false);
  }

  lemma GroupAround(command: string, inner: string, after: string)
    requires OpensGroup(command) && Pieces(inner, false).Some? && Pieces(after, false).Some?
    ensures Pieces(command + inner + "}" + after, false) ==
            Some([Opened(MarksOf(command))] + (Pieces(inner, false).value + ([Closed] + Pieces(after, false).value)))
  {
    hide Pieces, MarksOf, OpensGroup;
    GroupPieces(command);
    assert command + inner + "}" + after == command + (inner + ("}" + after));
    PiecesConcat(command, inner + ("}" + after), false);
    PiecesConcat(inner, "}" + after, false);
    PiecesConcat("}", after, false);
  }

  lemma SpanRefines(mark: string, inner: string, rest: string, after: string, command: string)
    requires IsMark(mark) && OpensGroup(command) && MarksOf(command) == 2 * |mark|
    requires PiecesRefine(after, rest)
    ensures PiecesRefine(command + inner + "}" + after, mark + inner + mark + rest)
  {
    hide Pieces, Refines, MarkPieces, MarksOf, OpensGroup;
    if Pieces(mark + inner + mark + rest, false).Some? {
      SpanPieces(mark, inner, rest);
      GroupAround(command, inner, after);
      GroupRefines(MarksOf(command), mark, Pieces(inner, false).value, Pieces(after, false).value,
          Pieces(rest, false).value);
    }
  }

  /** A move in front of what refines. */
  lemma MoveRefines(s: string, m: Move, after: string)
    requires s != "" && FirstMove(s, false) == Some(m) && m.length <= |s|
    requires PiecesRefine(after, s[m.length..])
    ensures PiecesRefine(s[..m.length] + after, s)
  {
    var head, rest := s[..m.length], s[m.length..];
    MoveAlone(s, false);
    hide FirstMove, Refines;
    OnePiece(head, m, false);
    PiecesConcat(head, after, false);
    assert PieceOf(head, m) == PieceOf(s, m);
    if Pieces(s, false).Some? {
      RefinesItself(PieceOf(s, m));
      RefinesConcat(PieceOf(s, m), PieceOf(s, m), Pieces(after, false).value, Pieces(rest, false).value);
    }
  }

  lemma {:induction false} BoldRefines(s: string)
    ensures PiecesRefine(BoldSub(s), s)
    decreases |s|
  {
    hide FirstMove, BoldAt, Refines, PiecesRefine;
    if s == "" {
      NothingRefines();
    } else if BoldAt(s) {
      var j := BoldEndOf(s);
      BoldRefines(s[j + 2..]);
      SpanRefines("**", s[2..j], s[j + 2..], BoldSub(s[j + 2..]), "\\textbf{");
    } else if FirstMove(s, false).Some? {
      var m := FirstMove(s, false).value;
      BoldRefines(s[m.length..]);
      BoldKeepsMove(s);
      MoveRefines(s, m, BoldSub(s[m.length..]));
    } else {
      UnreadableRefines(BoldSub(s), s);
    }
  }

  lemma NothingRefines()
    ensures PiecesRefine("", "")
  {
  }

  lemma UnreadableRefines(after: string, s: string)
    requires s != "" && FirstMove(s, false).None?
    ensures PiecesRefine(after, s)
  {
  }

  lemma {:induction false} ItalicRefines(s: string)
    ensures PiecesRefine(ItalicSub(s), s)
    decreases |s|
  {
    hide FirstMove, ItalicAt, Refines, PiecesRefine;
    if s == "" {
      NothingRefines();
    } else if ItalicAt(s) {
      var j := ItalicEndOf(s);
      ItalicRefines(s[j + 1..]);
      SpanRefines([s[0]], s[1..j], s[j + 1..], ItalicSub(s[j + 1..]), "\\textit{");
    } else if FirstMove(s, false).Some? {
      var m := FirstMove(s, false).value;
      ItalicRefines(s[m.length..]);
      ItalicKeepsMove(s);
      MoveRefines(s, m, ItalicSub(s[m.length..]));
    } else {
      UnreadableRefines(ItalicSub(s), s);
    }
  }

  lemma {:induction false} UnderscorePieces(s: string)
    requires Pieces(s, false).Some?
    ensures Pieces(Replace(s, '_', "\\_"), true) == Pieces(s, false)
    decreases |s|
  {
    hide FirstMove;
    if s != "" {
      var m := FirstMove(s, false).value;
      var after := Replace(s[m.length..], '_', "\\_");
      UnderscorePieces(s[m.length..]);
      assert s == s[..m.length] + s[m.length..];
      ReplaceConcat(s[..m.length], s[m.length..], '_', "\\_");
      UnderscoreMove(s, after);
      UnderscorePiece(s, after);
    }
  }

  lemma UnderscorePiece(s: string, after: string)
    requires s != "" && FirstMove(s, false).Some?
    ensures var t := Replace(s[..FirstMove(s, false).value.length], '_', "\\_") + after;
      t != "" && FirstMove(t, true).Some? &&
          PieceOf(t, FirstMove(t, true).value) == PieceOf(s, FirstMove(s, false).value)
  {
    UnderscoreMove(s, after);
    var m := FirstMove(s, false).value;
    var head := s[..m.length];
    if s[0] == '_' {
      assert head == "_" && head[1..] == "";
      assert Replace(head, '_', "\\_") == "\\_" + "" == "\\_";
    } else {
      MoveWithoutUnderscore(s);
      hide FirstMove;
      NoOccurrence(head, '_', "\\_");
      assert (head + after)[0] == s[0];
    }
  }

  /** Each asterisk and each underscore of the text is read where it stands, as itself or as the start
      or the end of a group; every other character is read where it stands. */
  lemma EveryMarkIsInPlace(text: string)
    ensures Pieces(InlineToLatex(text), true).Some? && Refines(Pieces(InlineToLatex(text), true).value, Plain(text))
  {
    hide Pieces, Refines;
    var escaped := EscapeLatex(text);
    var bold := BoldSub(escaped);
    var italic := ItalicSub(bold);
    EscapedPieces(text);
    BoldRefines(escaped);
    ItalicRefines(bold);
    RefinesTwice(Pieces(italic, false).value, Pieces(bold, false).value, Plain(text));
    UnderscorePieces(italic);
  }
}
