/** `str.splitlines`, `str.strip` and the heading pattern that both Markdown readers use. */
module PythonText {
  import opened Options

  /** `str.isspace`, which is also what `\s` matches. */
  predicate IsSpace(c: char) {
    var n := c as int;
    || 9 <= n <= 13 || 0x1C <= n <= 0x20 || n == 0x85 || n == 0xA0 || n == 0x1680
    || 0x2000 <= n <= 0x200A || n == 0x2028 || n == 0x2029 || n == 0x202F || n == 0x205F || n == 0x3000
  }

  /** The line boundaries of `str.splitlines`. */
  predicate IsLineBreak(c: char) {
    var n := c as int;
    10 <= n <= 13 || 0x1C <= n <= 0x1E || n == 0x85 || n == 0x2028 || n == 0x2029
  }

  function FirstBreak(s: string): (k: nat)
    ensures k <= |s|
    ensures k < |s| ==> IsLineBreak(s[k])
    ensures forall i :: 0 <= i < k ==> !IsLineBreak(s[i])
  {
    if s == "" || IsLineBreak(s[0]) then 0 else 1 + FirstBreak(s[1..])
  }

  function SplitLines(s: string): (lines: seq<string>)
    ensures forall line <- lines :: forall c <- line :: !IsLineBreak(c)
    decreases |s|
  {
    if s == "" then []
    else
      var k := FirstBreak(s);
      if k == |s| then [s]
      else if s[k] == '\r' && k + 1 < |s| && s[k + 1] == '\n' then [s[..k]] + SplitLines(s[k + 2..])
      else [s[..k]] + SplitLines(s[k + 1..])
  }

  function LStrip(s: string): (r: string)
    ensures forall c <- r :: c in s
    ensures r != "" ==> !IsSpace(r[0])
  {
    if s != "" && IsSpace(s[0]) then LStrip(s[1..]) else s
  }

  function RStrip(s: string): (r: string)
    ensures r <= s
    ensures r != "" ==> !IsSpace(r[|r| - 1])
  {
    if s != "" && IsSpace(s[|s| - 1]) then RStrip(s[..|s| - 1]) else s
  }

  function Strip(s: string): (r: string)
    ensures forall c <- r :: c in s
    ensures r != "" ==> !IsSpace(r[0]) && !IsSpace(r[|r| - 1])
  {
    RStrip(LStrip(s))
  }

  function LeadingHashes(s: string): (n: nat)
    ensures n <= |s|
  {
    if s != "" && s[0] == '#' then 1 + LeadingHashes(s[1..]) else 0
  }

  /** One to `maxLevel` hashes, then white space: the level and the text, of a stripped line. */
  function Heading(s: string, maxLevel: nat): Option<(nat, string)> {
    var n := LeadingHashes(s);
    if 1 <= n <= maxLevel && n < |s| && IsSpace(s[n]) then Some((n, LStrip(s[n..]))) else None
  }

  function Join(separator: string, parts: seq<string>): string {
    if parts == [] then "" else if |parts| == 1 then parts[0] else parts[0] + separator + Join(separator, parts[1..])
  }

  predicate IsSubstring(a: string, b: string) {
    exists k | 0 <= k <= |b| :: a <= b[k..]
  }
}
