/** Which section's lines a rewritten block gets, and that nothing else of it changes. */
module GeneratedBlocks {
  import opened Options
  import opened Strings
  import opened PythonText
  import opened ResumeDocument
  import opened AiService

  /** Leading dashes, asterisks and spaces are taken away, and nothing else. */
  lemma {:induction false} StripBulletIs(s: string) returns (bullet: string)
    ensures s == bullet + StripBullet(s) && forall c <- bullet :: c == '-' || c == '*' || c == ' '
    ensures StripBullet(s) == "" || StripBullet(s)[0] !in "-* "
  {
    if s != "" && s[0] in "-* " {
      var rest := StripBulletIs(s[1..]);
      bullet := [s[0]] + rest;
    } else {
      bullet := "";
    }
  }

  /** One of the two names stands somewhere in the other. */
  ghost predicate Touch(key: string, name: string) {
    exists before: string, after: string :: key == before + name + after || name == before + key + after
  }

  lemma SubstringIff(a: string, b: string)
    ensures IsSubstring(a, b) <==> exists before: string, after: string :: b == before + a + after
  {
    if IsSubstring(a, b) {
      var k: nat :| k <= |b| && a <= b[k..];
      assert b == b[..k] + a + b[k + |a|..];
    }
    if before: string, after: string :| b == before + a + after {
      assert b[|before|..] == a + after;
      assert a <= b[|before|..];
    }
  }

  lemma TouchIff(key: string, name: string)
    ensures Touch(key, name) <==> IsSubstring(name, key) || IsSubstring(key, name)
  {
    hide IsSubstring;
    SubstringIff(name, key);
    SubstringIff(key, name);
    if before: string, after: string :| key == before + name + after {
      assert Touch(key, name);
    }
    if before: string, after: string :| name == before + key + after {
      assert Touch(key, name);
    }
  }

  /** The title in lower case, or the type with spaces. */
  ghost predicate Concerns(key: string, block: Block, lower: string -> string) {
    Touch(key, lower(block.title)) || Touch(key, Replace(block.kind, '_', " "))
  }

  lemma MatchesIff(key: string, block: Block, lower: string -> string)
    ensures Matches(key, [lower(block.title), Replace(block.kind, '_', " ")]) <==> Concerns(key, block, lower)
  {
    hide IsSubstring, Touch, Replace;
    var title, kind := lower(block.title), Replace(block.kind, '_', " ");
    TouchIff(key, title);
    TouchIff(key, kind);
    assert [title, kind][0] == title && [title, kind][1] == kind;
    if Concerns(key, block, lower) {
      var name := if Touch(key, title) then title else kind;
      assert name in [title, kind];
    }
  }

  /** The first of the keys that concerns the block, or none. */
  lemma {:induction false} FirstMatchIs(order: seq<string>, block: Block, lower: string -> string)
    returns (k: nat)
    ensures k <= |order| && forall h :: 0 <= h < k ==> !Concerns(order[h], block, lower)
    ensures k < |order| ==> Concerns(order[k], block, lower)
    ensures FirstMatch(order, [lower(block.title), Replace(block.kind, '_', " ")]) ==
            if k < |order| then Some(order[k]) else None
  {
    hide Matches, Concerns, Replace;
    if order == [] {
      k := 0;
    } else {
      MatchesIff(order[0], block, lower);
      if Matches(order[0], [lower(block.title), Replace(block.kind, '_', " ")]) {
        k := 0;
      } else {
        var rest := FirstMatchIs(order[1..], block, lower);
        k := rest + 1;
        assert forall h :: 1 <= h < |order| ==> order[h] == order[1..][h - 1];
      }
    }
  }

  /** A rewritten block gets the lines that stand under the first heading whose name stands in its title or
      type, or in whose name one of those stands; without such a heading it gets none. Blocks that show
      lists get them as bullets too; nothing else of a block changes. */
  lemma BlockGetsItsSection(markdown: string, existing: seq<Block>, lower: string -> string, i: nat)
    returns (k: nat, content: seq<string>)
    requires i < |existing|
    ensures var lines, block := SplitLines(markdown), existing[i]; var keys := KeysSeen(lines, lower);
      && k <= |keys| && (forall h :: 0 <= h < k ==> !Concerns(keys[h], block, lower))
      && (k < |keys| ==> Concerns(keys[k], block, lower))
      && content == (if k < |keys| then TextsUnder(lines, keys[k], lower) else [])
    ensures RewrittenBlocks(existing, Sorted(SplitLines(markdown), lower), lower)[i] ==
            existing[i].(content := [("text", Text(Join("\n", content))),
                                     ("bullets", Items(if IsBulleted(existing[i].kind) then content else []))])
  {
    hide Concerns, FirstMatch, KeysSeen, TextsUnder, Sorted, WellKept, Replace, Join;
    var lines, block := SplitLines(markdown), existing[i];
    var keys, sections := KeysSeen(lines, lower), Sorted(lines, lower);
    EachSectionHoldsItsTexts(lines, lower);
    SectionsWellKept(lines, lower);
    KeysAreElements(sections);
    k := FirstMatchIs(keys, block, lower);
    content := if k < |keys| then TextsUnder(lines, keys[k], lower) else [];
    assert k < |keys| ==> keys[k] in sections.order;
    assert GeneratedText(block, sections, lower) == content;
  }

  predicate IsBulleted(kind: string) {
    kind == "experience" || kind == "project" || kind == "skills" || kind == "custom_list"
  }
}
