/**
 Which texts a block shows: read off its content by index, without the functions
 that lay it out.
 */
module BlockTexts {
  import opened PythonText
  import opened TextShapes
  import opened ResumeDocument
  import opened Paginator

  /** The texts of a value, blank ones included. */
  function SourceTexts(value: Value): seq<string> {
    match value
    case Text(text) => SplitLines(text)
    case Items(items) => items
    case Other => []
  }

  function Bullet(value: Value): string {
    if value.Items? then "- " else ""
  }

  /** `kept` lists the indices of the texts that are not blank, in order. */
  predicate Selects(kept: seq<nat>, texts: seq<string>) {
    && (forall k, l :: 0 <= k < l < |kept| ==> kept[k] < kept[l])
    && (forall k :: 0 <= k < |kept| ==> kept[k] < |texts| && !AllSpace(texts[kept[k]]))
    && (forall i: nat :: i < |texts| && !AllSpace(texts[i]) ==> i in kept)
  }

  predicate AreSelected(lines: seq<Line>, prefix: string, kept: seq<nat>, texts: seq<string>) {
    && |lines| == |kept| && Selects(kept, texts)
    && forall k :: 0 <= k < |kept| ==> lines[k] == Line(prefix + texts[kept[k]], false)
  }

  lemma {:induction false} NonBlankIs(lines: seq<string>, prefix: string, n: nat) returns (kept: seq<nat>)
    requires n <= |lines|
    ensures AreSelected(NonBlank(lines[..n], prefix), prefix, kept, lines[..n])
  {
    hide AllSpace, Strip, AreSelected;
    if n == 0 {
      kept := [];
      NoneSelected(prefix);
    } else {
      kept := NonBlankIs(lines, prefix, n - 1);
      var before := lines[..n - 1];
      assert lines[..n] == before + [lines[n - 1]];
      NonBlankGrows(before, lines[n - 1], prefix);
      BlankIff(lines[n - 1]);
      OneMoreText(NonBlank(before, prefix), prefix, kept, before, lines[n - 1]);
      kept := if AllSpace(lines[n - 1]) then kept else kept + [n - 1];
      assert NonBlank(before, prefix) + [] == NonBlank(before, prefix);
    }
  }

  lemma NoneSelected(prefix: string)
    ensures AreSelected(NonBlank([], prefix), prefix, [], [])
  {
  }

  lemma OneMoreText(lines: seq<Line>, prefix: string, kept: seq<nat>, texts: seq<string>, text: string)
    requires AreSelected(lines, prefix, kept, texts)
    ensures if AllSpace(text) then AreSelected(lines, prefix, kept, texts + [text])
            else AreSelected(lines + [Line(prefix + text, false)], prefix, kept + [|texts|], texts + [text])
  {
    hide AllSpace;
  }

  lemma {:induction false} NonBlankGrows(lines: seq<string>, line: string, prefix: string)
    ensures NonBlank(lines + [line], prefix) ==
            NonBlank(lines, prefix) + if Strip(line) != "" then [Line(prefix + line, false)] else []
  {
    if lines == [] {
      assert [] + [line] == [line] && [line][1..] == [];
    } else {
      assert (lines + [line])[1..] == lines[1..] + [line];
      NonBlankGrows(lines[1..], line, prefix);
    }
  }

  lemma {:induction false} LinesOfSpace(s: string)
    requires AllSpace(s)
    ensures forall line <- SplitLines(s) :: AllSpace(line)
    decreases |s|
  {
    hide IsSpace, IsLineBreak;
    if s != "" && FirstBreak(s) < |s| {
      var k, n := FirstLine(s);
      LinesOfSpace(s[k + n..]);
      hide SplitLines;
    }
  }

  lemma NothingSelected(kept: seq<nat>, texts: seq<string>)
    requires Selects(kept, texts) && forall text <- texts :: AllSpace(text)
    ensures kept == []
  {
    hide AllSpace;
    FirstSelected(kept, texts);
  }

  lemma FirstSelected(kept: seq<nat>, texts: seq<string>)
    requires Selects(kept, texts)
    ensures kept != [] ==> exists text <- texts :: !AllSpace(text)
  {
    hide AllSpace;
    assert kept != [] ==> texts[kept[0]] in texts;
  }

  /** A value shows its texts that are not blank, in order, with a bullet if it is a list. */
  lemma ValueLinesAre(value: Value) returns (kept: seq<nat>)
    ensures AreSelected(ValueLines(value), Bullet(value), kept, SourceTexts(value))
  {
    var texts := SourceTexts(value);
    assert texts[..|texts|] == texts;
    kept := NonBlankIs(texts, Bullet(value), |texts|);
    if value.Text? {
      BlankIff(value.text);
      if AllSpace(value.text) {
        LinesOfSpace(value.text);
        NothingSelected(kept, texts);
      }
    }
  }

  // ---- a whole block ----------------------------------------------------------------------

  /** A text of a block's content: which value, and which text of it. */
  datatype Origin = Origin(entry: nat, index: nat)

  type Content = seq<(string, Value)>

  predicate IsShown(content: Content, o: Origin) {
    && o.entry < |content| && o.index < |SourceTexts(content[o.entry].1)|
    && !AllSpace(SourceTexts(content[o.entry].1)[o.index])
  }

  predicate Precedes(o: Origin, p: Origin) {
    o.entry < p.entry || (o.entry == p.entry && o.index < p.index)
  }

  function TextAt(content: Content, o: Origin): string
    requires IsShown(content, o)
  {
    Bullet(content[o.entry].1) + SourceTexts(content[o.entry].1)[o.index]
  }

  /** `origins` lists every text of the content that is not blank, in order. */
  ghost predicate AreOrigins(content: Content, origins: seq<Origin>) {
    && (forall k, l :: 0 <= k < l < |origins| ==> Precedes(origins[k], origins[l]))
    && (forall o: Origin :: IsShown(content, o) ==> o in origins)
  }

  predicate ShowTexts(lines: seq<Line>, content: Content, origins: seq<Origin>) {
    && |lines| == |origins|
    && forall k :: 0 <= k < |lines| ==>
         IsShown(content, origins[k]) && lines[k] == Line(TextAt(content, origins[k]), false)
  }

  /** The lines are the texts of the content that are not blank, in order. */
  ghost predicate ShowsOrigins(lines: seq<Line>, content: Content, origins: seq<Origin>) {
    AreOrigins(content, origins) && ShowTexts(lines, content, origins)
  }

  lemma {:induction false} ContentLinesAre(content: Content) returns (origins: seq<Origin>)
    ensures ShowsOrigins(ContentLines(content), content, origins)
  {
    if content == [] {
      origins := [];
    } else {
      var n := |content| - 1;
      var earlier := ContentLinesAre(content[..n]);
      var kept := ValueLinesAre(content[n].1);
      origins := earlier + OriginsOf(n, kept);
      OneMoreValue(content, n, earlier, kept);
    }
  }

  function OriginsOf(n: nat, kept: seq<nat>): (origins: seq<Origin>)
    ensures |origins| == |kept|
  {
    seq(|kept|, k requires 0 <= k < |kept| => Origin(n, kept[k]))
  }

  lemma OneMoreValue(content: Content, n: nat, earlier: seq<Origin>, kept: seq<nat>)
    requires n + 1 == |content| && ShowsOrigins(ContentLines(content[..n]), content[..n], earlier)
    requires AreSelected(ValueLines(content[n].1), Bullet(content[n].1), kept, SourceTexts(content[n].1))
    ensures ShowsOrigins(ContentLines(content), content, earlier + OriginsOf(n, kept))
  {
    var before, added := ContentLines(content[..n]), ValueLines(content[n].1);
    assert ContentLines(content) == before + added;
    hide ContentLines, ValueLines, ShowTexts, Precedes, IsShown;
    EarlierOrigins(content, n, before, earlier);
    AddedOrigins(content, n, added, kept);
    JoinedOrigins(content, before, earlier, added, OriginsOf(n, kept));
    AllOrigins(content, n, earlier, kept);
    OriginsInOrder(content, n, before, earlier, kept);
  }

  lemma JoinedOrigins(content: Content, a: seq<Line>, o: seq<Origin>, b: seq<Line>, p: seq<Origin>)
    requires ShowTexts(a, content, o) && ShowTexts(b, content, p)
    ensures ShowTexts(a + b, content, o + p)
  {
    hide IsShown, TextAt;
  }

  lemma AddedOrigins(content: Content, n: nat, added: seq<Line>, kept: seq<nat>)
    requires n + 1 == |content| && AreSelected(added, Bullet(content[n].1), kept, SourceTexts(content[n].1))
    ensures ShowTexts(added, content, OriginsOf(n, kept))
  {
    hide AllSpace, Bullet, SourceTexts;
  }

  lemma EarlierOrigins(content: Content, n: nat, lines: seq<Line>, earlier: seq<Origin>)
    requires n + 1 == |content| && ShowTexts(lines, content[..n], earlier)
    ensures ShowTexts(lines, content, earlier) && forall k :: 0 <= k < |earlier| ==> earlier[k].entry < n
  {
    hide AllSpace, Bullet, SourceTexts;
    forall k | 0 <= k < |earlier|
      ensures IsShown(content, earlier[k]) && earlier[k].entry < n
      ensures lines[k] == Line(TextAt(content, earlier[k]), false)
    {
      assert IsShown(content[..n], earlier[k]);
    }
  }

  lemma AllOrigins(content: Content, n: nat, earlier: seq<Origin>, kept: seq<nat>)
    requires n + 1 == |content| && AreOrigins(content[..n], earlier) && Selects(kept, SourceTexts(content[n].1))
    ensures forall o: Origin :: IsShown(content, o) ==> o in earlier + OriginsOf(n, kept)
  {
    hide AllSpace, SourceTexts;
    forall o: Origin | IsShown(content, o)
      ensures o in earlier + OriginsOf(n, kept)
    {
      if o.entry < n {
        assert IsShown(content[..n], o);
      } else {
        assert o.index in kept;
        var k :| 0 <= k < |kept| && kept[k] == o.index;
        assert OriginsOf(n, kept)[k] == o;
      }
    }
  }

  lemma OriginsInOrder(content: Content, n: nat, lines: seq<Line>, earlier: seq<Origin>, kept: seq<nat>)
    requires n + 1 == |content| && ShowTexts(lines, content[..n], earlier)
    requires AreOrigins(content[..n], earlier) && Selects(kept, SourceTexts(content[n].1))
    ensures var origins := earlier + OriginsOf(n, kept);
      forall k, l :: 0 <= k < l < |origins| ==> Precedes(origins[k], origins[l])
  {
    hide AllSpace, SourceTexts;
    EarlierOrigins(content, n, lines, earlier);
  }

  // ---- wrapping ---------------------------------------------------------------------------

  /** What `wrap` makes of a text; nothing is shown as one empty line. */
  function Pieces(text: string, maxChars: nat, wrap: Wrap): (p: seq<string>)
    ensures p != []
  {
    if wrap(text, maxChars) == [] then [""] else wrap(text, maxChars)
  }

  /** A line has become the lines from `at` on, of which only the first can be a heading. */
  predicate IsWrapped(wrapped: seq<Line>, line: Line, at: nat, maxChars: nat, wrap: Wrap) {
    var pieces := Pieces(line.text, maxChars, wrap);
    && at + |pieces| <= |wrapped|
    && forall j :: 0 <= j < |pieces| ==> wrapped[at + j] == Line(pieces[j], line.heading && j == 0)
  }

  /** Line `i` of `lines` has become the lines from `starts[i]` on, and there are no others. */
  predicate AreWrapped(wrapped: seq<Line>, lines: seq<Line>, starts: seq<nat>, maxChars: nat, wrap: Wrap) {
    && |starts| == |lines| + 1 && starts[0] == 0 && starts[|lines|] == |wrapped|
    && forall i :: 0 <= i < |lines| ==>
         && starts[i + 1] == starts[i] + |Pieces(lines[i].text, maxChars, wrap)|
         && IsWrapped(wrapped, lines[i], starts[i], maxChars, wrap)
  }

  lemma ChunksAre(before: seq<Line>, line: Line, maxChars: nat, wrap: Wrap)
    ensures |Chunks(line, maxChars, wrap)| == |Pieces(line.text, maxChars, wrap)|
    ensures IsWrapped(before + Chunks(line, maxChars, wrap), line, |before|, maxChars, wrap)
  {
  }

  lemma StaysWrapped(wrapped: seq<Line>, more: seq<Line>, line: Line, at: nat, maxChars: nat, wrap: Wrap)
    requires IsWrapped(wrapped, line, at, maxChars, wrap)
    ensures IsWrapped(wrapped + more, line, at, maxChars, wrap)
  {
  }

  lemma {:induction false} WrappedAre(lines: seq<Line>, maxChars: nat, wrap: Wrap) returns (starts: seq<nat>)
    ensures AreWrapped(Wrapped(lines, maxChars, wrap), lines, starts, maxChars, wrap)
  {
    hide IsWrapped, Chunks, Pieces;
    if lines == [] {
      starts := [0];
    } else {
      var n := |lines| - 1;
      var earlier := WrappedAre(lines[..n], maxChars, wrap);
      var before, chunks := Wrapped(lines[..n], maxChars, wrap), Chunks(lines[n], maxChars, wrap);
      ChunksAre(before, lines[n], maxChars, wrap);
      starts := earlier + [earlier[n] + |chunks|];
      forall i | 0 <= i < n
        ensures IsWrapped(before + chunks, lines[i], starts[i], maxChars, wrap)
      {
        StaysWrapped(before, chunks, lines[..n][i], earlier[i], maxChars, wrap);
      }
    }
  }

  /** A block shows its title, the first line of which is its only heading, then every text of its content
      that is not blank, with bullets in lists, each wrapped, and then an empty line. */
  lemma BlockLinesAre(block: Block, maxChars: nat, wrap: Wrap)
    returns (lines: seq<Line>, origins: seq<Origin>, starts: seq<nat>)
    ensures lines != [] && lines[0] == Line(block.title, true) && ShowsOrigins(lines[1..], block.content, origins)
    ensures var all := BlockLines(block, maxChars, wrap);
      all != [] && all[|all| - 1] == Line("", false) && AreWrapped(all[..|all| - 1], lines, starts, maxChars, wrap)
  {
    hide Wrapped, AreWrapped, ShowsOrigins, ContentLines;
    origins := ContentLinesAre(block.content);
    lines := [Line(block.title, true)] + ContentLines(block.content);
    assert lines[1..] == ContentLines(block.content);
    starts := WrappedAre(lines, maxChars, wrap);
    var wrapped := Wrapped(lines, maxChars, wrap);
    assert (wrapped + [Line("", false)])[..|wrapped|] == wrapped;
  }
}
