/** The Python string operations the translators use, and what sequential replaces amount to. */
module Strings {

  /** `s.replace(c, r)` for a one-character pattern. */
  function Replace(s: string, c: char, r: string): string {
    if s == "" then "" else (if s[0] == c then r else [s[0]]) + Replace(s[1..], c, r)
  }

  /** A backslash before every special character, in one pass. */
  function Escaped(s: string, special: set<char>): string {
    if s == "" then "" else (if s[0] in special then ['\\', s[0]] else [s[0]]) + Escaped(s[1..], special)
  }

  lemma {:induction false} ReplaceConcat(s: string, t: string, c: char, r: string)
    ensures Replace(s + t, c, r) == Replace(s, c, r) + Replace(t, c, r)
  {
    if s == "" {
      assert s + t == t;
    } else {
      assert (s + t)[1..] == s[1..] + t;
      ReplaceConcat(s[1..], t, c, r);
    }
  }

  /** Escaping the backslash first, then two further characters, escapes each special character once. */
  lemma {:induction false} SequentialReplacesEscape(s: string, c: char, d: char)
    requires c != '\\' && d != '\\' && c != d
    ensures Replace(Replace(Replace(s, '\\', "\\\\"), c, ['\\', c]), d, ['\\', d]) == Escaped(s, {'\\', c, d})
  {
    if s != "" {
      SequentialReplacesEscape(s[1..], c, d);
      var a := if s[0] == '\\' then "\\\\" else [s[0]];
      ReplaceConcat(a, Replace(s[1..], '\\', "\\\\"), c, ['\\', c]);
      ReplaceConcat(Replace(a, c, ['\\', c]), Replace(Replace(s[1..], '\\', "\\\\"), c, ['\\', c]), d, ['\\', d]);
      assert Replace(Replace(a, c, ['\\', c]), d, ['\\', d])
          == if s[0] in {'\\', c, d} then ['\\', s[0]] else [s[0]] by {
        SingleCharacter(a, s[0], c, d);
      }
    }
  }

  lemma SingleCharacter(a: string, x: char, c: char, d: char)
    requires c != '\\' && d != '\\' && c != d
    requires a == if x == '\\' then "\\\\" else [x]
    ensures Replace(Replace(a, c, ['\\', c]), d, ['\\', d]) == if x in {'\\', c, d} then ['\\', x] else [x]
  {
    var empty := "";
    assert forall e: char, r: string :: Replace([x], e, r) == if x == e then r else [x] by {
      forall e: char, r: string
        ensures Replace([x], e, r) == if x == e then r else [x]
      {
        assert [x][1..] == empty;
        assert r + empty == r && [x] + empty == [x];
      }
    }
    if x == '\\' {
      NoOccurrence(a, c, ['\\', c]);
      NoOccurrence(a, d, ['\\', d]);
    } else if x == c {
      NoOccurrence(['\\', c], d, ['\\', d]);
    }
  }

  lemma {:induction false} NoOccurrence(s: string, c: char, r: string)
    requires c !in s
    ensures Replace(s, c, r) == s
  {
    if s != "" {
      assert s[0] in s && s[0] != c;
      NoOccurrence(s[1..], c, r);
    }
  }
}
