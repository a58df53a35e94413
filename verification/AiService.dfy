/** Generated Markdown sorted into the blocks of an existing document. */
module AiService {
  import opened Options
  import opened Strings
  import opened PythonText
  import opened ResumeDocument

  /** The `sections` dict, with its keys in insertion order, and the key lines go to. */
  datatype Sections = Sections(order: seq<string>, lines: map<string, seq<string>>, current: string)

  const START := Sections(["summary"], map["summary" := []], "summary")
  const BULLETED: set<string> := {"experience", "project", "skills", "custom_list"}

  /** `line.lstrip("-* ")` */
  function StripBullet(s: string): string {
    if s != "" && s[0] in "-* " then StripBullet(s[1..]) else s
  }

  /** `sections.setdefault(key, [])` */
  function WithKey(sections: Sections, key: string): Sections {
    if key in sections.lines then sections
    else sections.(order := sections.order + [key], lines := sections.lines[key := []])
  }

  function WithLine(sections: Sections, line: string, lower: string -> string): Sections {
    var stripped := Strip(line);
    var heading := Heading(stripped, 3);
    if heading.Some? then
      var key := lower(Strip(heading.value.1));
      WithKey(sections, key).(current := key)
    else if stripped != "" then
      var s := WithKey(sections, sections.current);
      s.(lines := s.lines[s.current := s.lines[s.current] + [StripBullet(stripped)]])
    else sections
  }

  function Sorted(lines: seq<string>, lower: string -> string): Sections {
    if lines == [] then START else WithLine(Sorted(lines[..|lines| - 1], lower), lines[|lines| - 1], lower)
  }

  predicate Matches(key: string, candidates: seq<string>) {
    exists candidate <- candidates :: IsSubstring(candidate, key) || IsSubstring(key, candidate)
  }

  /** The first section whose name contains, or is contained in, a name of the block. */
  function FirstMatch(order: seq<string>, candidates: seq<string>): Option<string> {
    if order == [] then None
    else if Matches(order[0], candidates) then Some(order[0])
    else FirstMatch(order[1..], candidates)
  }

  function GeneratedText(block: Block, sections: Sections, lower: string -> string): seq<string> {
    var key := FirstMatch(sections.order, [lower(block.title), Replace(block.kind, '_', " ")]);
    if key.Some? && key.value in sections.lines then sections.lines[key.value] else []
  }

  function Rewritten(block: Block, sections: Sections, lower: string -> string): Block {
    var content := GeneratedText(block, sections, lower);
    block.(content := [("text", Text(Join("\n", content))),
                       ("bullets", Items(if block.kind in BULLETED then content else []))])
  }

  function RewrittenBlocks(existing: seq<Block>, sections: Sections, lower: string -> string): (r: seq<Block>)
    ensures |r| == |existing| && forall i :: 0 <= i < |r| ==> r[i] == Rewritten(existing[i], sections, lower)
  {
    seq(|existing|, i requires 0 <= i < |existing| => Rewritten(existing[i], sections, lower))
  }

  ghost predicate WellKept(s: Sections) {
    && NoDuplicates(s.order) && Elements(s.order) == s.lines.Keys && s.current in s.lines
  }

  lemma SortedStep(lines: seq<string>, n: nat, lower: string -> string)
    requires n < |lines|
    ensures Sorted(lines[..n + 1], lower) == WithLine(Sorted(lines[..n], lower), lines[n], lower)
  {
    assert lines[..n + 1][..n] == lines[..n];
  }

  /** The second loop. */
  method RewriteBlocks(existing: seq<Block>, sections: Sections, lower: string -> string) returns (result: seq<Block>)
    ensures result == RewrittenBlocks(existing, sections, lower)
  {
    result := [];
    for n := 0 to |existing|
      invariant |result| == n
      invariant forall i :: 0 <= i < n ==> result[i] == Rewritten(existing[i], sections, lower)
    {
      result := result + [Rewritten(existing[n], sections, lower)];
    }
  }

  method MarkdownToBlocks(markdown: string, existing: seq<Block>, lower: string -> string) returns (result: seq<Block>)
    ensures result == RewrittenBlocks(existing, Sorted(SplitLines(markdown), lower), lower)
  {
    var sections := START;
    var lines := SplitLines(markdown);
    for n := 0 to |lines|
      invariant sections == Sorted(lines[..n], lower)
    {
      SortedStep(lines, n, lower);
      sections := WithLine(sections, lines[n], lower);
    }
    assert lines[..|lines|] == lines;
    result := RewriteBlocks(existing, sections, lower);
  }

  /** The dict stays a dict: one entry per key, and the current section always exists. */
  lemma {:induction false} SectionsWellKept(lines: seq<string>, lower: string -> string)
    ensures WellKept(Sorted(lines, lower))
  {
    if lines != [] {
      var s := Sorted(lines[..|lines| - 1], lower);
      SectionsWellKept(lines[..|lines| - 1], lower);
      var stripped := Strip(lines[|lines| - 1]);
      var heading := Heading(stripped, 3);
      KeyWellKept(s, if heading.Some? then lower(Strip(heading.value.1)) else s.current);
      if heading.None? && stripped != "" {
        var t := WithLine(s, lines[|lines| - 1], lower);
        assert t.lines.Keys == s.lines.Keys;
      }
    }
  }

  lemma KeyWellKept(s: Sections, key: string)
    requires WellKept(s)
    ensures WellKept(WithKey(s, key)) && key in WithKey(s, key).lines
  {
    var t := WithKey(s, key);
    if key !in s.lines {
      assert key !in Elements(s.order);
      assert forall i :: 0 <= i < |s.order| ==> s.order[i] in Elements(s.order);
      assert Elements(t.order) == Elements(s.order) + {key};
    }
  }

  // ---- what the sections hold -------------------------------------------------------------

  function HeadingKey(line: string, lower: string -> string): Option<string> {
    var heading := Heading(Strip(line), 3);
    if heading.Some? then Some(lower(Strip(heading.value.1))) else None
  }

  /** The heading that the line after `lines` stands under. */
  function KeyAfter(lines: seq<string>, lower: string -> string): string {
    if lines == [] then "summary"
    else
      var key := HeadingKey(lines[|lines| - 1], lower);
      if key.Some? then key.value else KeyAfter(lines[..|lines| - 1], lower)
  }

  /** "summary" and the headings, each where it appears first. */
  function KeysSeen(lines: seq<string>, lower: string -> string): seq<string> {
    if lines == [] then ["summary"]
    else
      var seen, key := KeysSeen(lines[..|lines| - 1], lower), HeadingKey(lines[|lines| - 1], lower);
      if key.Some? && key.value !in seen then seen + [key.value] else seen
  }

  /** The text of a line that is neither blank nor a heading. */
  function TextOf(line: string): seq<string> {
    if Strip(line) != "" && Heading(Strip(line), 3).None? then [StripBullet(Strip(line))] else []
  }

  function Texts(lines: seq<string>): seq<string> {
    if lines == [] then [] else Texts(lines[..|lines| - 1]) + TextOf(lines[|lines| - 1])
  }

  /** The texts that stand under `key`, in the order of the input. */
  function TextsUnder(lines: seq<string>, key: string, lower: string -> string): seq<string> {
    if lines == [] then []
    else
      var before := lines[..|lines| - 1];
      TextsUnder(before, key, lower) + if KeyAfter(before, lower) == key then TextOf(lines[|lines| - 1]) else []
  }

  lemma KeysAreElements(s: Sections)
    requires WellKept(s)
    ensures forall key :: key in s.order <==> key in s.lines
  {
    assert forall key :: key in s.order <==> key in Elements(s.order);
  }

  lemma WithLineIs(s: Sections, line: string, lower: string -> string)
    requires s.current in s.lines
    ensures WithLine(s, line, lower) ==
            var key := HeadingKey(line, lower);
            if key.Some? then WithKey(s, key.value).(current := key.value)
            else s.(lines := s.lines[s.current := s.lines[s.current] + TextOf(line)])
  {
    assert s.lines[s.current] + [] == s.lines[s.current];
    assert s.lines[s.current := s.lines[s.current]] == s.lines;
  }

  /** The sections are the headings in order of first appearance, and each holds exactly the texts that
      stand under it, in order. */
  lemma {:induction false} EachSectionHoldsItsTexts(lines: seq<string>, lower: string -> string)
    ensures var s := Sorted(lines, lower);
      && s.order == KeysSeen(lines, lower) && s.current == KeyAfter(lines, lower)
      && (forall key <- s.lines :: s.lines[key] == TextsUnder(lines, key, lower))
    ensures forall key :: key !in Sorted(lines, lower).lines ==> TextsUnder(lines, key, lower) == []
  {
    if lines != [] {
      hide WithLine, HeadingKey, TextOf;
      var before, line := lines[..|lines| - 1], lines[|lines| - 1];
      var s, t := Sorted(before, lower), Sorted(lines, lower);
      EachSectionHoldsItsTexts(before, lower);
      SectionsWellKept(before, lower);
      KeysAreElements(s);
      WithLineIs(s, line, lower);
      NoTextInHeading(line, lower);
      hide WellKept;
    }
  }

  lemma NoTextInHeading(line: string, lower: string -> string)
    ensures HeadingKey(line, lower).Some? ==> TextOf(line) == []
  {
  }

  /** All lines of the sections, section by section. */
  function AllLines(order: seq<string>, lines: map<string, seq<string>>): seq<string>
    requires forall key <- order :: key in lines
  {
    if order == [] then [] else lines[order[0]] + AllLines(order[1..], lines)
  }

  lemma {:induction false} OtherKeysStay(order: seq<string>, lines: map<string, seq<string>>, key: string,
      value: seq<string>)
    requires (forall k <- order :: k in lines) && key !in order
    ensures AllLines(order, lines[key := value]) == AllLines(order, lines)
  {
    if order != [] {
      OtherKeysStay(order[1..], lines, key, value);
    }
  }

  lemma {:induction false} MoreLines(order: seq<string>, lines: map<string, seq<string>>, key: string,
      more: seq<string>)
    requires NoDuplicates(order) && (forall k <- order :: k in lines) && key in order
    ensures multiset(AllLines(order, lines[key := lines[key] + more])) ==
            multiset(AllLines(order, lines)) + multiset(more)
  {
    var rest, longer := order[1..], lines[key := lines[key] + more];
    assert forall i :: 0 <= i < |rest| ==> rest[i] == order[i + 1] != order[0];
    if key == order[0] {
      OtherKeysStay(rest, lines, key, lines[key] + more);
      JoinedBags(lines[key] + more, AllLines(rest, lines));
      JoinedBags(lines[key], more);
      JoinedBags(lines[key], AllLines(rest, lines));
    } else {
      assert forall i, j :: 0 <= i < j < |rest| ==> rest[i] == order[i + 1] && rest[j] == order[j + 1];
      MoreLines(rest, lines, key, more);
      JoinedBags(lines[order[0]], AllLines(rest, longer));
      JoinedBags(lines[order[0]], AllLines(rest, lines));
    }
  }

  lemma JoinedBags(a: seq<string>, b: seq<string>)
    ensures multiset(a + b) == multiset(a) + multiset(b)
  {
  }

  lemma {:induction false} OneMoreKey(order: seq<string>, lines: map<string, seq<string>>, key: string)
    requires (forall k <- order :: k in lines) && key !in lines
    ensures AllLines(order + [key], lines[key := []]) == AllLines(order, lines)
  {
    if order == [] {
      assert order + [key] == [key];
    } else {
      assert order[0] in lines && (order + [key])[1..] == order[1..] + [key];
      OneMoreKey(order[1..], lines, key);
    }
  }

  lemma NoKeyNoChange(s: Sections, key: string)
    requires WellKept(s)
    ensures (forall k <- s.order :: k in s.lines) && (forall k <- WithKey(s, key).order :: k in WithKey(s, key).lines)
    ensures AllLines(WithKey(s, key).order, WithKey(s, key).lines) == AllLines(s.order, s.lines)
  {
    KeyWellKept(s, key);
    KeysAreElements(s);
    KeysAreElements(WithKey(s, key));
    if key !in s.lines {
      OneMoreKey(s.order, s.lines, key);
    }
  }

  /** No text is lost, repeated or changed on its way into the sections. */
  lemma {:induction false} EveryLineIsKept(lines: seq<string>, lower: string -> string)
    ensures forall key <- Sorted(lines, lower).order :: key in Sorted(lines, lower).lines
    ensures multiset(AllLines(Sorted(lines, lower).order, Sorted(lines, lower).lines)) == multiset(Texts(lines))
  {
    SectionsWellKept(lines, lower);
    KeysAreElements(Sorted(lines, lower));
    if lines == [] {
      assert START.order[1..] == [];
    } else {
      var before, line := lines[..|lines| - 1], lines[|lines| - 1];
      EveryLineIsKept(before, lower);
      SectionsWellKept(before, lower);
      var s := Sorted(before, lower);
      KeysAreElements(s);
      LineIsKept(s, line, lower);
    }
  }

  lemma LineIsKept(s: Sections, line: string, lower: string -> string)
    requires WellKept(s) && WellKept(WithLine(s, line, lower))
    requires (forall key <- s.order :: key in s.lines)
    requires forall key <- WithLine(s, line, lower).order :: key in WithLine(s, line, lower).lines
    ensures multiset(AllLines(WithLine(s, line, lower).order, WithLine(s, line, lower).lines)) ==
            multiset(AllLines(s.order, s.lines)) + multiset(TextOf(line))
  {
    var key := HeadingKey(line, lower);
    if key.Some? {
      NoKeyNoChange(s, key.value);
    } else if Strip(line) != "" {
      KeysAreElements(s);
      MoreLines(s.order, s.lines, s.current, TextOf(line));
    }
  }

  /** Whatever the model generated, the rewritten document passes the layout checks exactly when the
      document it was generated for does. */
  lemma GenerationKeepsLayout(doc: Document, markdown: string, lower: string -> string)
    ensures var blocks := RewrittenBlocks(doc.blocks, Sorted(SplitLines(markdown), lower), lower);
      FirstLayoutError(doc.(blocks := blocks)) == FirstLayoutError(doc)
  {
    var blocks := RewrittenBlocks(doc.blocks, Sorted(SplitLines(markdown), lower), lower);
    assert BlockIds(blocks) == BlockIds(doc.blocks);
  }
}
