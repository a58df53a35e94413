/** What the functions of PythonText find, said by taking the text apart. */
module TextShapes {
  import opened Options
  import opened PythonText

  predicate AllSpace(s: string) {
    forall c <- s :: IsSpace(c)
  }

  predicate StartsWithText(s: string) {
    s == "" || !IsSpace(s[0])
  }

  // ---- stripping --------------------------------------------------------------------------

  lemma {:induction false} LStripIs(s: string) returns (gap: string)
    ensures AllSpace(gap) && s == gap + LStrip(s)
  {
    hide IsSpace;
    if s != "" && IsSpace(s[0]) {
      var rest := LStripIs(s[1..]);
      gap := [s[0]] + rest;
      assert s == [s[0]] + s[1..] && gap + LStrip(s) == [s[0]] + (rest + LStrip(s));
    } else {
      gap := "";
    }
  }

  lemma {:induction false} RStripIs(s: string) returns (gap: string)
    ensures AllSpace(gap) && s == RStrip(s) + gap
  {
    hide IsSpace;
    if s != "" && IsSpace(s[|s| - 1]) {
      var rest := RStripIs(s[..|s| - 1]);
      gap := rest + [s[|s| - 1]];
      assert s == s[..|s| - 1] + [s[|s| - 1]] && RStrip(s) + gap == (RStrip(s) + rest) + [s[|s| - 1]];
    } else {
      gap := "";
    }
  }

  /** Nothing but white space is taken away, and none is left at either end. */
  lemma StripIs(s: string) returns (before: string, after: string)
    ensures AllSpace(before) && AllSpace(after) && s == before + Strip(s) + after
    ensures StartsWithText(Strip(s)) && (Strip(s) != "" ==> !IsSpace(Strip(s)[|Strip(s)| - 1]))
  {
    hide IsSpace, LStrip, RStrip;
    before := LStripIs(s);
    after := RStripIs(LStrip(s));
    assert before + (Strip(s) + after) == before + Strip(s) + after;
    assert Strip(s) != "" ==> Strip(s)[0] == LStrip(s)[0];
  }

  lemma BlankIff(s: string)
    ensures Strip(s) == "" <==> AllSpace(s)
  {
    hide IsSpace;
    var before, after := StripIs(s);
    FirstIsKept(s, Strip(s));
  }

  lemma FirstIsKept(s: string, t: string)
    requires (forall c <- t :: c in s) && StartsWithText(t)
    ensures AllSpace(s) ==> t == ""
  {
    hide IsSpace;
    assert t != "" ==> t[0] in t;
  }

  lemma {:induction false} LStripOf(gap: string, text: string)
    requires AllSpace(gap) && StartsWithText(text)
    ensures LStrip(gap + text) == text
  {
    if gap == "" {
      assert gap + text == text;
    } else {
      assert (gap + text)[1..] == gap[1..] + text;
      LStripOf(gap[1..], text);
    }
  }

  // ---- lines ------------------------------------------------------------------------------

  predicate IsLineEnd(e: string) {
    e == "\r\n" || (|e| == 1 && IsLineBreak(e[0]))
  }

  function Rejoined(lines: seq<string>, ends: seq<string>): string
    requires |lines| == |ends|
  {
    if lines == [] then "" else lines[0] + ends[0] + Rejoined(lines[1..], ends[1..])
  }

  /** The two halves of a CRLF stay together. */
  predicate KeepsPairs(lines: seq<string>, ends: seq<string>)
    requires |lines| == |ends|
  {
    forall i :: 0 <= i < |ends| - 1 && ends[i] == "\r" && lines[i + 1] == "" ==> !("\n" <= ends[i + 1])
  }

  /** Every line ends, except that the last one need not if it is not empty. */
  predicate LinesEnd(lines: seq<string>, ends: seq<string>)
    requires |lines| == |ends|
  {
    forall i :: 0 <= i < |ends| ==> IsLineEnd(ends[i]) || (i == |ends| - 1 && ends[i] == "" && lines[i] != "")
  }

  lemma OneMoreLine(line: string, end: string, lines: seq<string>, ends: seq<string>)
    requires |lines| == |ends| && LinesEnd(lines, ends) && KeepsPairs(lines, ends)
    requires IsLineEnd(end) && (end == "\r" ==> !("\n" <= Rejoined(lines, ends)))
    ensures Rejoined([line] + lines, [end] + ends) == line + end + Rejoined(lines, ends)
    ensures LinesEnd([line] + lines, [end] + ends) && KeepsPairs([line] + lines, [end] + ends)
  {
    hide IsLineEnd;
    var all, allEnds := [line] + lines, [end] + ends;
    assert all[1..] == lines && allEnds[1..] == ends;
    assert forall i :: 1 <= i < |all| ==> all[i] == lines[i - 1] && allEnds[i] == ends[i - 1];
    FirstOfRejoined(lines, ends);
  }

  /** The end of the first line, which is not the last. */
  lemma FirstLine(s: string) returns (k: nat, n: nat)
    requires FirstBreak(s) < |s|
    ensures k + n <= |s| && n > 0 && SplitLines(s) == [s[..k]] + SplitLines(s[k + n..])
    ensures IsLineEnd(s[k..k + n]) && (s[k..k + n] == "\r" ==> !("\n" <= s[k + n..]))
  {
    k := FirstBreak(s);
    n := if s[k] == '\r' && k + 1 < |s| && s[k + 1] == '\n' then 2 else 1;
    hide IsLineBreak;
  }

  /** The lines with their ends put back are the text. */
  lemma {:induction false} SplitLinesIs(s: string) returns (ends: seq<string>)
    ensures |ends| == |SplitLines(s)| && Rejoined(SplitLines(s), ends) == s
    ensures LinesEnd(SplitLines(s), ends) && KeepsPairs(SplitLines(s), ends)
    decreases |s|, 1
  {
    if s == "" {
      ends := [];
    } else if FirstBreak(s) == |s| {
      ends := [""];
      LastLine(s);
    } else {
      ends := MoreLines(s);
    }
  }

  lemma {:induction false} MoreLines(s: string) returns (ends: seq<string>)
    requires FirstBreak(s) < |s|
    ensures |ends| == |SplitLines(s)| && Rejoined(SplitLines(s), ends) == s
    ensures LinesEnd(SplitLines(s), ends) && KeepsPairs(SplitLines(s), ends)
    decreases |s|, 0
  {
    hide LinesEnd, KeepsPairs, Rejoined, IsLineEnd, SplitLines;
    var k, n := FirstLine(s);
    var later := SplitLinesIs(s[k + n..]);
    ends := [s[k..k + n]] + later;
    OneMoreLine(s[..k], s[k..k + n], SplitLines(s[k + n..]), later);
    assert s == s[..k] + s[k..k + n] + s[k + n..];
  }

  lemma LastLine(s: string)
    requires s != ""
    ensures Rejoined([s], [""]) == s && LinesEnd([s], [""]) && KeepsPairs([s], [""])
  {
    assert [s][1..] == [] && [""][1..] == [];
  }

  lemma FirstOfRejoined(lines: seq<string>, ends: seq<string>)
    requires |lines| == |ends|
    ensures lines != [] && lines[0] == "" && "\n" <= ends[0] ==> "\n" <= Rejoined(lines, ends)
  {
  }

  // ---- headings ---------------------------------------------------------------------------

  predicate IsGap(s: string) {
    s != "" && AllSpace(s)
  }

  function Hashes(n: nat): (s: string)
    ensures |s| == n && forall c <- s :: c == '#'
  {
    seq(n, _ => '#')
  }

  lemma {:induction false} LeadingHashesOf(n: nat, rest: string)
    requires rest == "" || rest[0] != '#'
    ensures LeadingHashes(Hashes(n) + rest) == n
  {
    var s := Hashes(n) + rest;
    if n == 0 {
      assert s == rest;
    } else {
      assert Hashes(n)[0] in Hashes(n);
      assert s[1..] == Hashes(n - 1) + rest;
      LeadingHashesOf(n - 1, rest);
    }
  }

  lemma {:induction false} LeadingHashesAre(s: string)
    ensures s[..LeadingHashes(s)] == Hashes(LeadingHashes(s))
  {
    if s != "" && s[0] == '#' {
      LeadingHashesAre(s[1..]);
      var n := LeadingHashes(s[1..]);
      assert s[..n + 1] == [s[0]] + s[1..][..n];
      assert Hashes(n + 1) == ['#'] + Hashes(n);
    }
  }

  /** Hashes, white space, and a text that does not begin with white space. */
  ghost predicate IsHeadingOf(s: string, n: nat, text: string) {
    StartsWithText(text) && exists gap :: IsGap(gap) && s == Hashes(n) + gap + text
  }

  lemma HeadingIff(s: string, maxLevel: nat, n: nat, text: string)
    ensures Heading(s, maxLevel) == Some((n, text)) <==> 1 <= n <= maxLevel && IsHeadingOf(s, n, text)
  {
    if Heading(s, maxLevel) == Some((n, text)) {
      LeadingHashesAre(s);
      var gap := LStripIs(s[n..]);
      assert s == s[..n] + s[n..];
      assert s == Hashes(n) + gap + text;
      assert gap != "" by {
        assert s[n..][0] == s[n];
      }
      assert IsGap(gap);
    }
    if 1 <= n <= maxLevel && IsHeadingOf(s, n, text) {
      var gap :| IsGap(gap) && s == Hashes(n) + gap + text;
      assert s == Hashes(n) + (gap + text) && (gap + text)[0] == gap[0] && gap[0] in gap;
      LeadingHashesOf(n, gap + text);
      assert s[n..] == gap + text;
      LStripOf(gap, text);
    }
  }
}
