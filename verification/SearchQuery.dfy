/** Free-text search as an escaped LIKE pattern, and what the pattern matches. */
module SearchQuery {
  import opened Strings

  const ILIKE_ESCAPE_CHAR := '\\'

  function IlikePattern(value: string): string {
    var escaped := Replace(Replace(Replace(value, ILIKE_ESCAPE_CHAR, [ILIKE_ESCAPE_CHAR, ILIKE_ESCAPE_CHAR]),
                                   '%', [ILIKE_ESCAPE_CHAR, '%']),
                           '_', [ILIKE_ESCAPE_CHAR, '_']);
    "%" + escaped + "%"
  }

  /** The LIKE predicate with an escape character, section 8.5 of ISO/IEC 9075-2; literal characters
      are compared after `fold`, which is case folding for ILIKE and the identity for LIKE. */
  ghost predicate Like(pattern: string, s: string, fold: char -> char)
    decreases |pattern|
  {
    if pattern == "" then s == ""
    else if pattern[0] == '%' then exists k :: 0 <= k <= |s| && Like(pattern[1..], s[k..], fold)
    else if pattern[0] == '_' then s != "" && Like(pattern[1..], s[1..], fold)
    else if pattern[0] == ILIKE_ESCAPE_CHAR then
      && |pattern| >= 2 && pattern[1] in {ILIKE_ESCAPE_CHAR, '%', '_'}
      && s != "" && fold(pattern[1]) == fold(s[0]) && Like(pattern[2..], s[1..], fold)
    else s != "" && fold(pattern[0]) == fold(s[0]) && Like(pattern[1..], s[1..], fold)
  }

  ghost predicate SameFolded(a: string, b: string, fold: char -> char) {
    |a| == |b| && forall i :: 0 <= i < |a| ==> fold(a[i]) == fold(b[i])
  }

  ghost predicate OccursAt(s: string, value: string, k: nat, fold: char -> char) {
    k <= |s| - |value| && SameFolded(value, s[k..k + |value|], fold)
  }

  /** `value` occurs in `s`. */
  ghost predicate Contains(s: string, value: string, fold: char -> char) {
    exists k :: OccursAt(s, value, k, fold)
  }

  const SPECIAL: set<char> := {'\\', '%', '_'}

  /** An escaped text in a pattern matches itself and nothing else. */
  lemma {:induction false} EscapedTextIsLiteral(value: string, rest: string, s: string, fold: char -> char)
    ensures Like(Escaped(value, SPECIAL) + rest, s, fold) <==>
              |value| <= |s| && SameFolded(value, s[..|value|], fold) && Like(rest, s[|value|..], fold)
  {
    var p := Escaped(value, SPECIAL) + rest;
    if value == "" {
      assert p == rest && s[0..] == s;
    } else {
      var head := if value[0] in SPECIAL then ['\\', value[0]] else [value[0]];
      assert p == head + (Escaped(value[1..], SPECIAL) + rest);
      assert p[|head|..] == Escaped(value[1..], SPECIAL) + rest;
      if s != "" {
        EscapedTextIsLiteral(value[1..], rest, s[1..], fold);
        assert |value| <= |s| ==> s[1..][..|value| - 1] == s[..|value|][1..] && s[1..][|value| - 1..] == s[|value|..];
        assert |value| <= |s| ==> (SameFolded(value, s[..|value|], fold) <==>
                 fold(value[0]) == fold(s[0]) && SameFolded(value[1..], s[..|value|][1..], fold)) by {
          if |value| <= |s| {
            SplitSame(value, s[..|value|], fold);
          }
        }
      }
    }
  }

  lemma SplitSame(a: string, b: string, fold: char -> char)
    requires |a| == |b| > 0
    ensures SameFolded(a, b, fold) <==> fold(a[0]) == fold(b[0]) && SameFolded(a[1..], b[1..], fold)
  {
    if fold(a[0]) == fold(b[0]) && SameFolded(a[1..], b[1..], fold) {
      forall i | 0 <= i < |a| ensures fold(a[i]) == fold(b[i]) {
        assert i > 0 ==> a[i] == a[1..][i - 1] && b[i] == b[1..][i - 1];
      }
    }
    if SameFolded(a, b, fold) {
      forall i | 0 <= i < |a| - 1 ensures fold(a[1..][i]) == fold(b[1..][i]) {
        assert a[1..][i] == a[i + 1] && b[1..][i] == b[i + 1];
      }
    }
  }

  lemma PercentMatchesAnything(s: string, fold: char -> char)
    ensures Like("%", s, fold)
  {
    assert s[|s|..] == "" && "%"[1..] == "";
    assert Like("%"[1..], s[|s|..], fold);
  }

  /** Whatever the value, wildcards and escapes included: the pattern matches exactly the texts that contain it. */
  lemma PatternMeansContains(value: string, s: string, fold: char -> char)
    ensures Like(IlikePattern(value), s, fold) <==> Contains(s, value, fold)
  {
    SequentialReplacesEscape(value, '%', '_');
    var p := IlikePattern(value);
    assert p[1..] == Escaped(value, SPECIAL) + "%";
    forall k | 0 <= k <= |s|
      ensures Like(p[1..], s[k..], fold) <==> OccursAt(s, value, k, fold)
    {
      EscapedTextIsLiteral(value, "%", s[k..], fold);
      if k <= |s| - |value| {
        assert s[k..][..|value|] == s[k..k + |value|];
        PercentMatchesAnything(s[k..][|value|..], fold);
      }
    }
  }
}
