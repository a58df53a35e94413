/**
 Literal strings of a PDF content stream: how the renderer escapes a line, and
 what a reader of section 7.3.4.2 of ISO 32000-1 gets back. A byte is written
 as the character with its value, so a byte string is a `string` too.
 */
module PdfText {
  import opened Options
  import opened Strings

  function Escape(value: string): string {
    Replace(Replace(Replace(value, '\\', "\\\\"), '(', "\\("), ')', "\\)")
  }

  function Byte(n: int): char
    requires 0 <= n < 256
  {
    n as char
  }

  /** UTF-8 (RFC 3629, section 3). */
  function Utf8Char(c: char): string {
    var n := c as int;
    if n < 0x80 then [c]
    else if n < 0x800 then [Byte(0xC0 + n / 64), Byte(0x80 + n % 64)]
    else if n < 0x1_0000 then [Byte(0xE0 + n / 4096), Byte(0x80 + n / 64 % 64), Byte(0x80 + n % 64)]
    else [Byte(0xF0 + n / 262144), Byte(0x80 + n / 4096 % 64), Byte(0x80 + n / 64 % 64), Byte(0x80 + n % 64)]
  }

  function Utf8(s: string): string {
    if s == "" then "" else Utf8Char(s[0]) + Utf8(s[1..])
  }

  lemma {:induction false} Utf8Concat(s: string, t: string)
    ensures Utf8(s + t) == Utf8(s) + Utf8(t)
  {
    if s == "" {
      assert s + t == t;
    } else {
      assert (s + t)[1..] == s[1..] + t;
      Utf8Concat(s[1..], t);
    }
  }

  datatype Literal = Literal(text: string, rest: string)

  predicate IsOctal(c: char) {
    '0' <= c <= '7'
  }

  /** How many of the first three bytes are octal digits. */
  function OctalRun(bs: string): (n: nat)
    ensures n <= 3 && n <= |bs|
    ensures bs != "" && IsOctal(bs[0]) ==> n > 0
  {
    if |bs| < 1 || !IsOctal(bs[0]) then 0
    else if |bs| < 2 || !IsOctal(bs[1]) then 1
    else if |bs| < 3 || !IsOctal(bs[2]) then 2
    else 3
  }

  function OctalValue(bs: string): nat
    requires forall c <- bs :: IsOctal(c)
  {
    if bs == "" then 0
    else
      assert bs[|bs| - 1] in bs && IsOctal(bs[|bs| - 1]);
      assert forall c <- bs[..|bs| - 1] :: IsOctal(c);
      OctalValue(bs[..|bs| - 1]) * 8 + (bs[|bs| - 1] as int - '0' as int)
  }

  function Push(c: char, l: Option<Literal>): Option<Literal> {
    if l.None? then None else Some(Literal([c] + l.value.text, l.value.rest))
  }

  /** Past one end-of-line marker. */
  function SkipEol(bs: string): (r: string)
    requires bs != "" && (bs[0] == '\r' || bs[0] == '\n')
    ensures |r| < |bs|
  {
    if bs[0] == '\r' && |bs| > 1 && bs[1] == '\n' then bs[2..] else bs[1..]
  }

  /** The string whose opening parenthesis has been read, with `depth` further ones open. */
  function ReadLiteral(bs: string, depth: nat): Option<Literal>
    decreases |bs|
  {
    if bs == "" then None
    else if bs[0] == ')' then
      if depth == 0 then Some(Literal("", bs[1..])) else Push(')', ReadLiteral(bs[1..], depth - 1))
    else if bs[0] == '(' then Push('(', ReadLiteral(bs[1..], depth + 1))
    else if bs[0] == '\r' || bs[0] == '\n' then Push('\n', ReadLiteral(SkipEol(bs), depth))
    else if bs[0] != '\\' then Push(bs[0], ReadLiteral(bs[1..], depth))
    else if |bs| == 1 then None
    else
      var c := bs[1];
      if c == 'n' then Push('\n', ReadLiteral(bs[2..], depth))
      else if c == 'r' then Push('\r', ReadLiteral(bs[2..], depth))
      else if c == 't' then Push('\t', ReadLiteral(bs[2..], depth))
      else if c == 'b' then Push(Byte(8), ReadLiteral(bs[2..], depth))
      else if c == 'f' then Push(Byte(12), ReadLiteral(bs[2..], depth))
      else if c == '(' || c == ')' || c == '\\' then Push(c, ReadLiteral(bs[2..], depth))
      else if c == '\r' || c == '\n' then ReadLiteral(SkipEol(bs[1..]), depth)
      else if IsOctal(c) then
        var n := OctalRun(bs[1..]);
        assert forall d <- bs[1..][..n] :: IsOctal(d);
        Push(Byte(OctalValue(bs[1..][..n]) % 256), ReadLiteral(bs[1 + n..], depth))
      else ReadLiteral(bs[1..], depth)
  }

  /** Every end-of-line marker as one line feed. */
  function EolNormalized(s: string): string
    decreases |s|
  {
    if s == "" then ""
    else if s[0] == '\r' then "\n" + EolNormalized(SkipEol(s))
    else [s[0]] + EolNormalized(s[1..])
  }

  lemma {:induction false} NormalizedIffNoCr(s: string)
    ensures '\r' !in EolNormalized(s)
    ensures '\r' !in s ==> EolNormalized(s) == s
    decreases |s|
  {
    if s != "" {
      if s[0] == '\r' {
        NormalizedIffNoCr(SkipEol(s));
      } else {
        NormalizedIffNoCr(s[1..]);
      }
    }
  }

  predicate IsOrdinary(c: char) {
    c != '(' && c != ')' && c != '\\' && c != '\r' && c != '\n'
  }

  function Prepend(text: string, l: Option<Literal>): Option<Literal> {
    if l.None? then None else Some(Literal(text + l.value.text, l.value.rest))
  }

  /** The reader's three moves on what the renderer writes. */
  lemma ReadOrdinary(b: char, rest: string)
    requires IsOrdinary(b)
    ensures ReadLiteral([b] + rest, 0) == Push(b, ReadLiteral(rest, 0))
  {
    assert ([b] + rest)[1..] == rest;
  }

  lemma ReadEscaped(c: char, rest: string)
    requires c in SPECIAL
    ensures ReadLiteral(['\\', c] + rest, 0) == Push(c, ReadLiteral(rest, 0))
  {
    assert (['\\', c] + rest)[2..] == rest;
  }

  lemma ReadEol(bs: string)
    requires bs != "" && (bs[0] == '\r' || bs[0] == '\n')
    ensures ReadLiteral(bs, 0) == Push('\n', ReadLiteral(SkipEol(bs), 0))
  {
  }

  lemma {:induction false} OrdinaryBytesStand(bs: string, rest: string)
    requires forall c <- bs :: IsOrdinary(c)
    ensures ReadLiteral(bs + rest, 0) == Prepend(bs, ReadLiteral(rest, 0))
  {
    hide ReadLiteral, IsOrdinary;
    if bs == "" {
      assert bs + rest == rest;
      assert ReadLiteral(rest, 0).Some? ==> bs + ReadLiteral(rest, 0).value.text == ReadLiteral(rest, 0).value.text;
    } else {
      assert bs[0] in bs && bs + rest == [bs[0]] + (bs[1..] + rest);
      ReadOrdinary(bs[0], bs[1..] + rest);
      OrdinaryBytesStand(bs[1..], rest);
      var l := ReadLiteral(rest, 0);
      assert l.Some? ==> [bs[0]] + (bs[1..] + l.value.text) == bs + l.value.text;
    }
  }

  const SPECIAL: set<char> := {'\\', '(', ')'}

  lemma OrdinaryUtf8(c: char)
    requires c !in SPECIAL && c != '\r' && c != '\n'
    ensures forall b <- Utf8Char(c) :: IsOrdinary(b)
  {
  }

  /** The bytes of a drawn text and of what follows it. */
  function Drawn(text: string, rest: string): string {
    Utf8(Escaped(text, SPECIAL)) + ")" + rest
  }

  function Normalized(text: string, rest: string): Option<Literal> {
    Some(Literal(Utf8(EolNormalized(text)), rest))
  }

  /** A drawn line reads back as itself with its end-of-line markers normalized, whatever it contains. */
  lemma {:induction false} DrawnTextReadsBack(text: string, rest: string)
    ensures ReadLiteral(Drawn(text, rest), 0) == Normalized(text, rest)
    decreases |text|
  {
    if text == "" {
      assert Drawn(text, rest) == ")" + rest;
      assert (")" + rest)[1..] == rest;
    } else if text[0] in SPECIAL {
      DrawnTextReadsBack(text[1..], rest);
      EscapedCharacterReadsBack(text, rest);
    } else if text[0] == '\r' || text[0] == '\n' {
      DrawnTextReadsBack(SkipEol(text), rest);
      EolReadsBack(text, rest);
    } else {
      DrawnTextReadsBack(text[1..], rest);
      OrdinaryCharacterReadsBack(text, rest);
    }
  }

  lemma DrawnEscaped(text: string, rest: string)
    requires text != "" && text[0] in SPECIAL
    ensures Drawn(text, rest) == ['\\', text[0]] + Drawn(text[1..], rest)
  {
    var c := text[0];
    Utf8Concat(['\\', c], Escaped(text[1..], SPECIAL));
    assert ['\\', c][1..] == [c] && [c][1..] == "";
    assert Utf8(['\\', c]) == ['\\', c];
  }

  lemma NormalizedHead(text: string)
    requires text != ""
    ensures text[0] == '\r' || text[0] == '\n' ==>
              Utf8(EolNormalized(text)) == ['\n'] + Utf8(EolNormalized(SkipEol(text)))
    ensures text[0] != '\r' ==> Utf8(EolNormalized(text)) == Utf8Char(text[0]) + Utf8(EolNormalized(text[1..]))
  {
    var tail := if text[0] == '\r' then SkipEol(text) else text[1..];
    assert EolNormalized(text)[1..] == EolNormalized(tail);
  }

  lemma EscapedCharacterReadsBack(text: string, rest: string)
    requires text != "" && text[0] in SPECIAL
    requires ReadLiteral(Drawn(text[1..], rest), 0) == Normalized(text[1..], rest)
    ensures ReadLiteral(Drawn(text, rest), 0) == Normalized(text, rest)
  {
    DrawnEscaped(text, rest);
    ReadEscaped(text[0], Drawn(text[1..], rest));
    NormalizedHead(text);
  }

  lemma OrdinaryCharacterReadsBack(text: string, rest: string)
    requires text != "" && text[0] !in SPECIAL && text[0] != '\r' && text[0] != '\n'
    requires ReadLiteral(Drawn(text[1..], rest), 0) == Normalized(text[1..], rest)
    ensures ReadLiteral(Drawn(text, rest), 0) == Normalized(text, rest)
  {
    var c := text[0];
    assert Escaped(text, SPECIAL) == [c] + Escaped(text[1..], SPECIAL);
    assert Escaped(text, SPECIAL)[1..] == Escaped(text[1..], SPECIAL);
    assert Drawn(text, rest) == Utf8Char(c) + Drawn(text[1..], rest);
    OrdinaryUtf8(c);
    OrdinaryBytesStand(Utf8Char(c), Drawn(text[1..], rest));
    NormalizedHead(text);
  }

  lemma EolIsDrawn(text: string, rest: string)
    requires text != "" && (text[0] == '\r' || text[0] == '\n')
    ensures Drawn(text, rest) == [text[0]] + Drawn(text[1..], rest)
  {
    assert Escaped(text, SPECIAL)[1..] == Escaped(text[1..], SPECIAL);
  }

  lemma DrawnEol(text: string, rest: string)
    requires text != "" && (text[0] == '\r' || text[0] == '\n')
    ensures Drawn(text, rest)[0] == text[0] && SkipEol(Drawn(text, rest)) == Drawn(SkipEol(text), rest)
  {
    hide Drawn;
    var next := SkipEol(text);
    EolIsDrawn(text, rest);
    if text[0] == '\r' && |text| > 1 && text[1] == '\n' {
      EolIsDrawn(text[1..], rest);
      assert text[1..][1..] == next;
    } else {
      FirstByte(next, rest);
    }
  }

  lemma EolReadsBack(text: string, rest: string)
    requires text != "" && (text[0] == '\r' || text[0] == '\n')
    requires ReadLiteral(Drawn(SkipEol(text), rest), 0) == Normalized(SkipEol(text), rest)
    ensures ReadLiteral(Drawn(text, rest), 0) == Normalized(text, rest)
  {
    DrawnEol(text, rest);
    ReadEol(Drawn(text, rest));
    NormalizedHead(text);
  }

  /** No other character's encoding starts with a line feed. */
  lemma FirstByte(text: string, rest: string)
    ensures Drawn(text, rest)[0] == '\n' <==> text != "" && text[0] == '\n'
  {
    if text != "" && text[0] !in SPECIAL {
      assert Escaped(text, SPECIAL)[0] == text[0];
    }
  }

  lemma {:induction false} Utf8KeepsCr(s: string)
    ensures '\r' in Utf8(s) <==> '\r' in s
  {
    if s != "" {
      Utf8KeepsCr(s[1..]);
      assert '\r' in Utf8Char(s[0]) <==> s[0] == '\r';
    }
  }

  /** So the reader gets exactly the line that was laid out if and only if the line has no carriage return. */
  lemma DrawnTextIsExact(text: string, rest: string)
    ensures ReadLiteral(Utf8(Escape(text)) + ")" + rest, 0) == Some(Literal(Utf8(text), rest)) <==> '\r' !in text
  {
    SequentialReplacesEscape(text, '(', ')');
    DrawnTextReadsBack(text, rest);
    NormalizedIffNoCr(text);
    Utf8KeepsCr(text);
    Utf8KeepsCr(EolNormalized(text));
  }

  /** The operator that shows a line of text. */
  function ShowOperator(text: string): string {
    "(" + Escape(text) + ") Tj"
  }

  lemma {:induction false} AsciiStays(s: string)
    requires forall c <- s :: c as int < 0x80
    ensures Utf8(s) == s
  {
    if s != "" {
      assert s[0] in s && forall c <- s[1..] :: c in s;
      AsciiStays(s[1..]);
    }
  }

  /** After encoding, the operand of the operator reads back as the line, by the same condition. */
  lemma ShownTextIsExact(text: string)
    ensures "(" <= Utf8(ShowOperator(text))
    ensures ReadLiteral(Utf8(ShowOperator(text))[1..], 0) == Some(Literal(Utf8(text), " Tj")) <==> '\r' !in text
  {
    AsciiStays("(");
    AsciiStays(") Tj");
    Utf8Concat("(" + Escape(text), ") Tj");
    Utf8Concat("(", Escape(text));
    OperandOf(Utf8(ShowOperator(text)), Utf8(Escape(text)));
    DrawnTextIsExact(text, " Tj");
  }

  lemma OperandOf(bytes: string, operand: string)
    requires bytes == "(" + operand + ") Tj"
    ensures "(" <= bytes && bytes[1..] == operand + ")" + " Tj"
  {
  }
}
