/**
 What the two substitutions find: the leftmost shortest span that their patterns
 match, each time, and what a line with a span becomes.
 */
module InlineSpans {
  import opened Strings
  import opened InlineLatex

  // ---- the patterns -----------------------------------------------------------------------

  /** `\*\*(.+?)\*\*` can match from `i`, with its closing asterisks at `j`. */
  predicate IsBoldSpan(s: string, i: nat, j: nat) {
    i + 3 <= j && j + 2 <= |s| && s[i] == s[i + 1] == s[j] == s[j + 1] == '*' && '\n' !in s[i + 2..j]
  }

  /** The leftmost match, and there the shortest. */
  ghost predicate IsFirstBold(s: string, i: nat, j: nat) {
    && IsBoldSpan(s, i, j)
    && (forall h: nat, k: nat :: IsBoldSpan(s, h, k) ==> i <= h)
    && (forall k: nat :: IsBoldSpan(s, i, k) ==> j <= k)
  }

  ghost predicate HasBold(s: string) {
    exists i: nat, j: nat :: IsBoldSpan(s, i, j)
  }

  /** `\*(.+?)\*|_(.+?)_` likewise. */
  predicate IsItalicSpan(s: string, i: nat, j: nat) {
    i + 2 <= j < |s| && (s[i] == '*' || s[i] == '_') && s[j] == s[i] && '\n' !in s[i + 1..j]
  }

  ghost predicate IsFirstItalic(s: string, i: nat, j: nat) {
    && IsItalicSpan(s, i, j)
    && (forall h: nat, k: nat :: IsItalicSpan(s, h, k) ==> i <= h)
    && (forall k: nat :: IsItalicSpan(s, i, k) ==> j <= k)
  }

  ghost predicate HasItalic(s: string) {
    exists i: nat, j: nat :: IsItalicSpan(s, i, j)
  }

  // ---- bold -------------------------------------------------------------------------------

  lemma {:induction false} BoldEndIs(s: string, j: nat)
    requires 3 <= j <= |s| && s[0] == s[1] == '*' && '\n' !in s[2..j - 1]
    requires forall k: nat :: k < j ==> !IsBoldSpan(s, 0, k)
    ensures BoldEnd(s, j).Some? ==>
              IsBoldSpan(s, 0, BoldEnd(s, j).value) && forall k: nat :: IsBoldSpan(s, 0, k) ==> BoldEnd(s, j).value <= k
    ensures BoldEnd(s, j).None? ==> forall k: nat :: !IsBoldSpan(s, 0, k)
    decreases |s| - j
  {
    if s[j - 1] == '\n' {
      forall k: nat | j <= k <= |s|
        ensures '\n' in s[2..k]
      {
        assert s[2..k][j - 3] == '\n';
      }
    } else {
      assert s[2..j] == s[2..j - 1] + [s[j - 1]];
      if !(j + 2 <= |s| && s[j] == '*' && s[j + 1] == '*') && j < |s| {
        assert s[2..j + 1 - 1] == s[2..j];
        BoldEndIs(s, j + 1);
      }
    }
  }

  lemma BoldAtIff(s: string)
    ensures BoldAt(s) <==> exists j: nat :: IsBoldSpan(s, 0, j)
    ensures BoldAt(s) ==> forall j: nat :: IsBoldSpan(s, 0, j) ==> BoldEnd(s, 3).value <= j
    ensures BoldAt(s) ==> IsBoldSpan(s, 0, BoldEnd(s, 3).value)
  {
    if |s| >= 3 && s[0] == s[1] == '*' {
      assert s[2..3 - 1] == "";
      BoldEndIs(s, 3);
    }
  }

  lemma BoldSpanLater(s: string, i: nat, j: nat)
    requires s != ""
    ensures IsBoldSpan(s[1..], i, j) <==> IsBoldSpan(s, i + 1, j + 1)
  {
    if i + 3 <= j && j + 3 <= |s| {
      assert s[1..][i + 2..j] == s[i + 3..j + 1];
    }
  }

  /** Without a match nothing changes. */
  lemma {:induction false} NoBold(s: string)
    requires !HasBold(s)
    ensures BoldSub(s) == s
  {
    BoldAtIff(s);
    if s != "" {
      forall i: nat, j: nat
        ensures !IsBoldSpan(s[1..], i, j)
      {
        BoldSpanLater(s, i, j);
      }
      NoBold(s[1..]);
    }
  }

  lemma BoldHere(s: string, j: nat)
    requires IsFirstBold(s, 0, j)
    ensures BoldSub(s) == "\\textbf{" + s[2..j] + "}" + BoldSub(s[j + 2..])
  {
    BoldAtIff(s);
  }

  lemma BoldLater(s: string, i: nat, j: nat)
    requires IsFirstBold(s, i, j) && i > 0
    ensures BoldSub(s) == [s[0]] + BoldSub(s[1..]) && IsFirstBold(s[1..], i - 1, j - 1)
  {
    BoldAtIff(s);
    assert s != "" && i + 3 <= j && !BoldAt(s);
    hide IsBoldSpan, BoldAt;
    forall h: nat, k: nat
      ensures IsBoldSpan(s[1..], h, k) <==> IsBoldSpan(s, h + 1, k + 1)
    {
      BoldSpanLater(s, h, k);
    }
  }

  /** With one, the leftmost shortest match becomes a group, and what follows it is treated likewise. */
  lemma {:induction false} BoldIsFirst(s: string, i: nat, j: nat)
    requires IsFirstBold(s, i, j)
    ensures i + 3 <= j && j + 2 <= |s|
    ensures BoldSub(s) == s[..i] + "\\textbf{" + s[i + 2..j] + "}" + BoldSub(s[j + 2..])
    decreases i
  {
    hide BoldSub;
    if i == 0 {
      BoldHere(s, j);
      assert s[..0] + "\\textbf{" == "\\textbf{";
    } else {
      BoldLater(s, i, j);
      BoldIsFirst(s[1..], i - 1, j - 1);
      assert s[..i] == [s[0]] + s[1..][..i - 1] && s[1..][i + 1..j - 1] == s[i + 2..j];
      assert s[1..][j + 1..] == s[j + 2..];
      Prepended(s[0], s[1..][..i - 1], "\\textbf{", s[i + 2..j], BoldSub(s[j + 2..]));
    }
  }

  lemma Prepended(c: char, before: string, open: string, inner: string, after: string)
    ensures [c] + (before + open + inner + "}" + after) == ([c] + before) + open + inner + "}" + after
  {
  }

  // ---- italic -----------------------------------------------------------------------------

  lemma {:induction false} ItalicEndIs(s: string, j: nat)
    requires 2 <= j <= |s| && (s[0] == '*' || s[0] == '_') && '\n' !in s[1..j - 1]
    requires forall k: nat :: k < j ==> !IsItalicSpan(s, 0, k)
    ensures ItalicEnd(s, s[0], j).Some? ==>
              && IsItalicSpan(s, 0, ItalicEnd(s, s[0], j).value)
              && forall k: nat :: IsItalicSpan(s, 0, k) ==> ItalicEnd(s, s[0], j).value <= k
    ensures ItalicEnd(s, s[0], j).None? ==> forall k: nat :: !IsItalicSpan(s, 0, k)
    decreases |s| - j
  {
    if s[j - 1] == '\n' {
      forall k: nat | j <= k <= |s|
        ensures '\n' in s[1..k]
      {
        assert s[1..k][j - 2] == '\n';
      }
    } else {
      assert s[1..j] == s[1..j - 1] + [s[j - 1]];
      if j < |s| && s[j] != s[0] {
        assert s[1..j + 1 - 1] == s[1..j];
        ItalicEndIs(s, j + 1);
      }
    }
  }

  lemma ItalicAtIff(s: string)
    ensures ItalicAt(s) <==> exists j: nat :: IsItalicSpan(s, 0, j)
    ensures ItalicAt(s) ==> forall j: nat :: IsItalicSpan(s, 0, j) ==> ItalicEnd(s, s[0], 2).value <= j
    ensures ItalicAt(s) ==> IsItalicSpan(s, 0, ItalicEnd(s, s[0], 2).value)
  {
    if |s| >= 2 && (s[0] == '*' || s[0] == '_') {
      assert s[1..2 - 1] == "";
      ItalicEndIs(s, 2);
    }
  }

  lemma ItalicSpanLater(s: string, i: nat, j: nat)
    requires s != ""
    ensures IsItalicSpan(s[1..], i, j) <==> IsItalicSpan(s, i + 1, j + 1)
  {
    if i + 2 <= j && j + 1 < |s| {
      assert s[1..][i + 1..j] == s[i + 2..j + 1];
    }
  }

  lemma {:induction false} NoItalic(s: string)
    requires !HasItalic(s)
    ensures ItalicSub(s) == s
  {
    ItalicAtIff(s);
    if s != "" {
      forall i: nat, j: nat
        ensures !IsItalicSpan(s[1..], i, j)
      {
        ItalicSpanLater(s, i, j);
      }
      NoItalic(s[1..]);
    }
  }

  lemma ItalicHere(s: string, j: nat)
    requires IsFirstItalic(s, 0, j)
    ensures ItalicSub(s) == "\\textit{" + s[1..j] + "}" + ItalicSub(s[j + 1..])
  {
    ItalicAtIff(s);
  }

  lemma ItalicLater(s: string, i: nat, j: nat)
    requires IsFirstItalic(s, i, j) && i > 0
    ensures ItalicSub(s) == [s[0]] + ItalicSub(s[1..]) && IsFirstItalic(s[1..], i - 1, j - 1)
  {
    ItalicAtIff(s);
    assert s != "" && i + 2 <= j && !ItalicAt(s);
    hide IsItalicSpan, ItalicAt;
    forall h: nat, k: nat
      ensures IsItalicSpan(s[1..], h, k) <==> IsItalicSpan(s, h + 1, k + 1)
    {
      ItalicSpanLater(s, h, k);
    }
  }

  lemma {:induction false} ItalicIsFirst(s: string, i: nat, j: nat)
    requires IsFirstItalic(s, i, j)
    ensures i + 2 <= j < |s|
    ensures ItalicSub(s) == s[..i] + "\\textit{" + s[i + 1..j] + "}" + ItalicSub(s[j + 1..])
    decreases i
  {
    hide ItalicSub;
    if i == 0 {
      ItalicHere(s, j);
      assert s[..0] + "\\textit{" == "\\textit{";
    } else {
      ItalicLater(s, i, j);
      ItalicIsFirst(s[1..], i - 1, j - 1);
      assert s[..i] == [s[0]] + s[1..][..i - 1] && s[1..][i..j - 1] == s[i + 1..j];
      assert s[1..][j..] == s[j + 1..];
      Prepended(s[0], s[1..][..i - 1], "\\textit{", s[i + 1..j], ItalicSub(s[j + 1..]));
    }
  }

  // ---- a whole line -----------------------------------------------------------------------

  predicate IsUnmarked(s: string) {
    forall c <- s :: !IsDelimiter(c)
  }

  lemma {:induction false} EscapeConcat(a: string, b: string)
    ensures EscapeLatex(a + b) == EscapeLatex(a) + EscapeLatex(b)
  {
    hide LatexSpecial;
    if a == "" {
      assert a + b == b;
    } else {
      assert (a + b)[1..] == a[1..] + b;
      EscapeConcat(a[1..], b);
    }
  }

  lemma {:induction false} EscapedUnmarked(s: string)
    requires IsUnmarked(s)
    ensures IsUnmarked(EscapeLatex(s)) && (s != "" ==> EscapeLatex(s) != "")
    ensures '\n' !in s ==> '\n' !in EscapeLatex(s)
  {
    if s != "" {
      assert s[0] in s && forall c <- s[1..] :: c in s;
      EscapedUnmarked(s[1..]);
      SpecialUnmarked(s[0]);
      hide LatexSpecial;
    }
  }

  lemma SpecialUnmarked(c: char)
    requires !IsDelimiter(c)
    ensures IsUnmarked(LatexSpecial(c)) && LatexSpecial(c) != "" && (c != '\n' ==> '\n' !in LatexSpecial(c))
  {
  }

  lemma MarkEscaped(mark: string)
    requires mark == "**" || mark == "*" || mark == "_"
    ensures EscapeLatex(mark) == mark
  {
    assert mark[1..] == "" || (mark[1..] == "*" && mark[1..][1..] == "");
  }

  lemma BoldCopiesAll(a: string, rest: string)
    requires IsUnmarked(a)
    ensures BoldSub(a + rest) == a + BoldSub(rest)
  {
    assert forall i :: 0 <= i < |a| ==> (a + rest)[i] == a[i] && a[i] in a;
    BoldCopies(a + rest, |a|);
    assert (a + rest)[..|a|] == a && (a + rest)[|a|..] == rest;
  }

  lemma ItalicCopiesAll(a: string, rest: string)
    requires IsUnmarked(a)
    ensures ItalicSub(a + rest) == a + ItalicSub(rest)
  {
    assert forall i :: 0 <= i < |a| ==> (a + rest)[i] == a[i] && a[i] in a;
    ItalicCopies(a + rest, |a|);
    assert (a + rest)[..|a|] == a && (a + rest)[|a|..] == rest;
  }

  lemma UnmarkedStays(a: string, rest: string)
    requires IsUnmarked(a)
    ensures Replace(a + rest, '_', "\\_") == a + Replace(rest, '_', "\\_")
  {
    ReplaceConcat(a, rest, '_', "\\_");
    assert '_' in a ==> IsDelimiter('_');
    NoOccurrence(a, '_', "\\_");
  }

  /** A part without marks is escaped and nothing more, whatever follows it. */
  lemma UnmarkedPart(a: string, rest: string)
    requires IsUnmarked(a)
    ensures InlineToLatex(a + rest) == EscapeLatex(a) + InlineToLatex(rest)
  {
    hide EscapeLatex, BoldSub, ItalicSub, Replace, IsUnmarked;
    EscapeConcat(a, rest);
    EscapedUnmarked(a);
    var e := EscapeLatex(a);
    BoldCopiesAll(e, EscapeLatex(rest));
    ItalicCopiesAll(e, BoldSub(EscapeLatex(rest)));
    UnmarkedStays(e, ItalicSub(BoldSub(EscapeLatex(rest))));
  }

  lemma GroupIsUnmarked(command: string, inner: string)
    requires OpensGroup(command) && IsUnmarked(inner)
    ensures IsUnmarked(command + inner + "}")
  {
  }

  lemma BoldPair(x: string, rest: string)
    requires IsUnmarked(x) && x != "" && '\n' !in x
    ensures BoldSub("**" + x + "**" + rest) == "\\textbf{" + x + "}" + BoldSub(rest)
  {
    var s, j := "**" + x + "**" + rest, |x| + 2;
    assert s[2..j] == x && s[j] == s[j + 1] == '*' && s[j + 2..] == rest;
    assert forall k :: 2 <= k < j ==> s[k] == x[k - 2] && x[k - 2] in x;
    assert IsFirstBold(s, 0, j);
    BoldHere(s, j);
  }

  /** A text between pairs of asterisks becomes a bold group where it stands. */
  lemma BoldBecomesGroup(a: string, x: string, rest: string)
    requires IsUnmarked(a) && IsUnmarked(x) && x != "" && '\n' !in x
    ensures InlineToLatex(a + ("**" + x + "**" + rest)) ==
            EscapeLatex(a) + ("\\textbf{" + EscapeLatex(x) + "}" + InlineToLatex(rest))
  {
    hide EscapeLatex, BoldSub, ItalicSub, Replace, IsUnmarked, InlineToLatex;
    UnmarkedPart(a, "**" + x + "**" + rest);
    BoldLine(x, rest);
  }

  lemma BoldLine(x: string, rest: string)
    requires IsUnmarked(x) && x != "" && '\n' !in x
    ensures InlineToLatex("**" + x + "**" + rest) == "\\textbf{" + EscapeLatex(x) + "}" + InlineToLatex(rest)
  {
    hide EscapeLatex, BoldSub, ItalicSub, Replace, IsUnmarked;
    var e, r := EscapeLatex(x), EscapeLatex(rest);
    EscapeConcat("**" + x + "**", rest);
    EscapeConcat("**" + x, "**");
    EscapeConcat("**", x);
    MarkEscaped("**");
    EscapedUnmarked(x);
    BoldPair(e, r);
    var group := "\\textbf{" + e + "}";
    GroupIsUnmarked("\\textbf{", e);
    ItalicCopiesAll(group, BoldSub(r));
    UnmarkedStays(group, ItalicSub(BoldSub(r)));
  }

  lemma ItalicPair(d: char, x: string, rest: string)
    requires IsDelimiter(d) && IsUnmarked(x) && x != "" && '\n' !in x
    ensures ItalicSub([d] + x + [d] + rest) == "\\textit{" + x + "}" + ItalicSub(rest)
  {
    var s, j := [d] + x + [d] + rest, |x| + 1;
    assert s[1..j] == x && s[j] == d && s[j + 1..] == rest;
    assert forall k :: 1 <= k < j ==> s[k] == x[k - 1] && x[k - 1] in x;
    assert IsFirstItalic(s, 0, j);
    ItalicHere(s, j);
  }

  /** One asterisk or underscore that no further one follows is left to the second substitution. */
  lemma SingleMarkWaits(d: char, rest: string)
    requires IsDelimiter(d) && (d == '*' ==> rest == "" || rest[0] != '*')
    ensures BoldSub([d] + rest) == [d] + BoldSub(rest)
  {
    assert ([d] + rest)[1..] == rest;
  }

  lemma {:induction false} EscapeKeepsFirst(s: string)
    requires s == "" || s[0] != '*'
    ensures EscapeLatex(s) == "" || EscapeLatex(s)[0] != '*'
  {
  }

  /** A text between two asterisks, the second of which is no pair's first, or between two underscores becomes
      an italic group where it stands. */
  lemma ItalicBecomesGroup(a: string, d: char, x: string, rest: string)
    requires IsUnmarked(a) && IsUnmarked(x) && x != "" && '\n' !in x
    requires IsDelimiter(d) && (d == '*' ==> rest == "" || rest[0] != '*')
    ensures InlineToLatex(a + ([d] + x + [d] + rest)) ==
            EscapeLatex(a) + ("\\textit{" + EscapeLatex(x) + "}" + InlineToLatex(rest))
  {
    hide EscapeLatex, BoldSub, ItalicSub, Replace, IsUnmarked, InlineToLatex;
    UnmarkedPart(a, [d] + x + [d] + rest);
    ItalicLine(d, x, rest);
  }

  lemma PairFromTheEnd(d: char, e: string, r: string)
    ensures [d] + e + [d] + r == [d] + (e + ([d] + r))
  {
  }

  lemma BoldLeavesPair(d: char, e: string, r: string)
    requires IsDelimiter(d) && IsUnmarked(e) && e != "" && (d == '*' ==> r == "" || r[0] != '*')
    ensures BoldSub([d] + e + [d] + r) == [d] + e + [d] + BoldSub(r)
  {
    hide BoldSub;
    assert e[0] in e && (e + ([d] + r))[0] == e[0];
    hide IsUnmarked, IsDelimiter;
    PairFromTheEnd(d, e, r);
    SingleMarkWaits(d, e + ([d] + r));
    BoldCopiesAll(e, [d] + r);
    SingleMarkWaits(d, r);
    PairFromTheEnd(d, e, BoldSub(r));
  }

  lemma EscapedPair(d: char, x: string, rest: string)
    requires IsDelimiter(d)
    ensures EscapeLatex([d] + x + [d] + rest) == [d] + EscapeLatex(x) + [d] + EscapeLatex(rest)
  {
    hide EscapeLatex;
    EscapeConcat([d] + x + [d], rest);
    EscapeConcat([d] + x, [d]);
    EscapeConcat([d], x);
    assert [d] == "*" || [d] == "_";
    MarkEscaped([d]);
  }

  lemma ItalicLine(d: char, x: string, rest: string)
    requires IsUnmarked(x) && x != "" && '\n' !in x
    requires IsDelimiter(d) && (d == '*' ==> rest == "" || rest[0] != '*')
    ensures InlineToLatex([d] + x + [d] + rest) == "\\textit{" + EscapeLatex(x) + "}" + InlineToLatex(rest)
  {
    hide EscapeLatex, BoldSub, ItalicSub, Replace, IsUnmarked;
    if d == '*' {
      EscapeKeepsFirst(rest);
    }
    EscapedPair(d, x, rest);
    EscapedUnmarked(x);
    var e, r := EscapeLatex(x), EscapeLatex(rest);
    BoldLeavesPair(d, e, r);
    ItalicPair(d, e, BoldSub(r));
    var group := "\\textit{" + e + "}";
    GroupIsUnmarked("\\textit{", e);
    UnmarkedStays(group, ItalicSub(BoldSub(r)));
  }
}
