/** Decimal numerals as the PDF writer formats them and a reader parses them. */
module Decimal {

  function Digit(d: int): char
    requires 0 <= d < 10
  {
    ('0' as int + d) as char
  }

  predicate IsDigit(c: char) {
    '0' <= c <= '9'
  }

  predicate AllDigits(s: string) {
    forall c <- s :: IsDigit(c)
  }

  function Dec(n: nat): (s: string)
    ensures s != "" && AllDigits(s)
  {
    if n < 10 then [Digit(n)] else Dec(n / 10) + [Digit(n % 10)]
  }

  function Parse(s: string): nat
    requires AllDigits(s)
  {
    if s == "" then 0
    else
      assert s[|s| - 1] in s && IsDigit(s[|s| - 1]);
      Parse(s[..|s| - 1]) * 10 + (s[|s| - 1] as int - '0' as int)
  }

  lemma {:induction false} ParseDec(n: nat)
    ensures Parse(Dec(n)) == n
  {
    if n < 10 {
      assert Dec(n)[..0] == "";
    } else {
      ParseDec(n / 10);
      assert Dec(n)[..|Dec(n)| - 1] == Dec(n / 10);
    }
  }

  function Zeros(n: nat): (s: string)
    ensures |s| == n && AllDigits(s)
  {
    seq(n, _ => '0')
  }

  /** `{n:0widthd}` */
  function Pad(n: nat, width: nat): (s: string)
    ensures AllDigits(s)
  {
    var d := Dec(n);
    if |d| < width then Zeros(width - |d|) + d else d
  }

  lemma {:induction false} LeadingZeros(k: nat, s: string)
    requires AllDigits(s)
    ensures AllDigits(Zeros(k) + s) && Parse(Zeros(k) + s) == Parse(s)
    decreases |s|, k
  {
    var t := Zeros(k) + s;
    if s != "" {
      LeadingZeros(k, s[..|s| - 1]);
      assert t[..|t| - 1] == Zeros(k) + s[..|s| - 1];
    } else if k > 0 {
      assert t == Zeros(k) && t[..k - 1] == Zeros(k - 1) + s;
      LeadingZeros(k - 1, s);
    }
  }

  lemma ParsePad(n: nat, width: nat)
    ensures Parse(Pad(n, width)) == n
  {
    ParseDec(n);
    if |Dec(n)| < width {
      LeadingZeros(width - |Dec(n)|, Dec(n));
    }
  }

  function Pow10(k: nat): nat {
    if k == 0 then 1 else 10 * Pow10(k - 1)
  }

  lemma {:induction false} DecLength(n: nat, k: nat)
    requires k > 0
    ensures |Dec(n)| <= k <==> n < Pow10(k)
  {
    if k == 1 {
      assert Pow10(1) == 10;
    } else if n < 10 {
      Pow10AtLeast(k);
    } else {
      DecLength(n / 10, k - 1);
    }
  }

  lemma {:induction false} Pow10AtLeast(k: nat)
    requires k > 0
    ensures Pow10(k) >= 10
  {
    if k > 1 {
      Pow10AtLeast(k - 1);
    }
  }

  /** A padded numeral has its width exactly while the number fits. */
  lemma PadLength(n: nat, width: nat)
    requires width > 0
    ensures |Pad(n, width)| == width <==> n < Pow10(width)
  {
    DecLength(n, width);
  }

  /** The digits a text starts with. */
  function DigitRun(s: string): (k: nat)
    ensures k <= |s| && AllDigits(s[..k])
  {
    if s == "" || !IsDigit(s[0]) then 0
    else
      var k := DigitRun(s[1..]);
      assert s[..k + 1] == [s[0]] + s[1..][..k];
      1 + k
  }

  lemma {:induction false} DigitRunOf(d: string, rest: string)
    requires AllDigits(d) && (rest == "" || !IsDigit(rest[0]))
    ensures DigitRun(d + rest) == |d|
  {
    if d == "" {
      assert d + rest == rest;
    } else {
      assert d[0] in d && (d + rest)[1..] == d[1..] + rest;
      DigitRunOf(d[1..], rest);
    }
  }

  /** The digits a text ends with. */
  function DigitTail(s: string): (k: nat)
    ensures k <= |s| && AllDigits(s[|s| - k..])
  {
    if s == "" || !IsDigit(s[|s| - 1]) then 0
    else
      var n := |s| - 1;
      var k := DigitTail(s[..n]);
      assert s[|s| - (k + 1)..] == s[..n][n - k..] + [s[n]];
      k + 1
  }

  lemma {:induction false} DigitTailOf(head: string, d: string)
    requires AllDigits(d) && (head == "" || !IsDigit(head[|head| - 1]))
    ensures DigitTail(head + d) == |d|
  {
    if d == "" {
      assert head + d == head;
    } else {
      var n := |d| - 1;
      assert d[n] in d && (head + d)[..|head + d| - 1] == head + d[..n];
      DigitTailOf(head, d[..n]);
    }
  }
}
