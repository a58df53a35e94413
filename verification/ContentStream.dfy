/**
 The bytes of a page's content stream, and a reader of them: tokens, operands
 and the text operators of section 9.4 of ISO 32000-1.
 */
module ContentStream {
  import opened Options
  import opened Strings
  import opened PythonText
  import opened Decimal
  import opened PdfText
  import opened PageStream
  import opened PagePositions

  /** `{:.4f}` and `{:g}` */
  datatype Formats = Formats(fixed: real -> string, general: real -> string)

  predicate IsNumeral(s: string) {
    s != "" && forall c <- s :: IsDigit(c) || c == '+' || c == '-' || c == '.' || c == 'e'
  }

  /** A number is written as a numeral. */
  ghost predicate FormatsContract(f: Formats) {
    forall x: real :: IsNumeral(f.fixed(x)) && IsNumeral(f.general(x))
  }

  function IntText(x: int): string {
    if x < 0 then "-" + Dec(-x) else Dec(x)
  }

  function Operator(c: Command, f: Formats): string {
    match c
    case BeginText => "BT"
    case Font(resource, size) => "/" + resource + " " + f.general(size) + " Tf"
    case Colour(rgb) => f.fixed(rgb.0) + " " + f.fixed(rgb.1) + " " + f.fixed(rgb.2) + " rg"
    case Place(x, y) => "1 0 0 1 " + IntText(x) + " " + IntText(y) + " Tm"
    case Show(text) => ShowOperator(text)
    case EndText => "ET"
  }

  function Operators(commands: seq<Command>, f: Formats): seq<string> {
    if commands == [] then [] else [Operator(commands[0], f)] + Operators(commands[1..], f)
  }

  /** `"\n".join(commands).encode()` */
  function StreamBytes(commands: seq<Command>, f: Formats): string {
    Utf8(Join("\n", Operators(commands, f)))
  }

  // ---- the reader -------------------------------------------------------------------------

  datatype Token = Word(text: string) | Text(bytes: string)

  predicate IsWhite(c: char) {
    var n := c as int;
    n == 0 || n == 9 || n == 10 || n == 12 || n == 13 || n == 32
  }

  predicate IsRegular(c: char) {
    0x21 <= c as int <= 0x7E && c !in "()<>[]{}/%"
  }

  function RegularRun(bs: string): (n: nat)
    ensures n <= |bs|
  {
    if bs == "" || !IsRegular(bs[0]) then 0 else 1 + RegularRun(bs[1..])
  }

  function Then(tokens: seq<Token>, r: Option<seq<Token>>): Option<seq<Token>> {
    if r.None? then None else Some(tokens + r.value)
  }

  /** Names, numbers and operators as words, and literal strings. There are none at a comment, an array,
      a dictionary or a hexadecimal string, which the writer never uses. */
  function Tokens(bs: string): Option<seq<Token>>
    decreases |bs|
  {
    if bs == "" then Some([])
    else if IsWhite(bs[0]) then Tokens(bs[1..])
    else if bs[0] == '(' then
      var l := ReadLiteral(bs[1..], 0);
      if l.None? || |l.value.rest| >= |bs| then None else Then([Text(l.value.text)], Tokens(l.value.rest))
    else
      var n := if bs[0] == '/' then 1 + RegularRun(bs[1..]) else RegularRun(bs);
      if n == 0 then None else Then([Word(bs[..n])], Tokens(bs[n..]))
  }

  /** What the text operators set: the position, the colour, the font and its size. */
  datatype Graphics = Graphics(x: int, y: int, colour: Option<seq<string>>, font: string, size: string)

  datatype Mark = Mark(g: Graphics, bytes: string)

  const START := Graphics(0, 0, None, "", "")

  predicate IsOperator(w: string) {
    w == "BT" || w == "ET" || w == "Tf" || w == "Tm" || w == "rg" || w == "Tj"
  }

  function ReadInt(w: string): Option<int> {
    if w != "" && AllDigits(w) then Some(Parse(w) as int)
    else if |w| > 1 && w[0] == '-' && AllDigits(w[1..]) then Some(-(Parse(w[1..]) as int))
    else None
  }

  predicate AreWords(stack: seq<Token>, n: nat) {
    |stack| == n && forall t <- stack :: t.Word?
  }

  /** What the words say; a matrix that is no translation is refused. */
  function Translation(stack: seq<Token>): Option<(int, int)>
    requires AreWords(stack, 6)
  {
    var x, y := ReadInt(stack[4].text), ReadInt(stack[5].text);
    if stack[..4] == [Word("1"), Word("0"), Word("0"), Word("1")] && x.Some? && y.Some? then Some((x.value, y.value))
    else None
  }

  /** An operator with its operands: the new state, and what is shown. */
  function Execute(w: string, stack: seq<Token>, g: Graphics): Option<(Graphics, seq<Mark>)> {
    if w == "Tj" then
      if |stack| == 1 && stack[0].Text? then Some((g, [Mark(g, stack[0].bytes)])) else None
    else if w == "Tm" then
      if AreWords(stack, 6) && Translation(stack).Some? then
        Some((g.(x := Translation(stack).value.0, y := Translation(stack).value.1), []))
      else None
    else if w == "rg" then
      if AreWords(stack, 3) then Some((g.(colour := Some([stack[0].text, stack[1].text, stack[2].text])), []))
      else None
    else if w == "Tf" then
      if AreWords(stack, 2) && "/" <= stack[0].text then
        Some((g.(font := stack[0].text[1..], size := stack[1].text), []))
      else None
    else if stack == [] then Some((g, [])) else None
  }

  function Also(marks: seq<Mark>, r: Option<seq<Mark>>): Option<seq<Mark>> {
    if r.None? then None else Some(marks + r.value)
  }

  function Run(tokens: seq<Token>, stack: seq<Token>, g: Graphics): Option<seq<Mark>> {
    if tokens == [] then if stack == [] then Some([]) else None
    else if tokens[0].Word? && IsOperator(tokens[0].text) then
      var r := Execute(tokens[0].text, stack, g);
      if r.None? then None else Also(r.value.1, Run(tokens[1..], [], r.value.0))
    else Run(tokens[1..], stack + [tokens[0]], g)
  }

  /** The strings that a content stream shows, each with where and how. */
  function ReadContent(bs: string): Option<seq<Mark>> {
    var tokens := Tokens(bs);
    if tokens.None? then None else Run(tokens.value, [], START)
  }

  // ---- words ------------------------------------------------------------------------------

  predicate IsRegularWord(w: string) {
    w != "" && forall c <- w :: IsRegular(c)
  }

  predicate IsWord(w: string) {
    IsRegularWord(w) || (w != "" && w[0] == '/' && IsRegularWord(w[1..]))
  }

  /** A word ends before this. */
  predicate Breaks(rest: string) {
    rest == "" || !IsRegular(rest[0])
  }

  lemma {:induction false} RegularRunOf(w: string, rest: string)
    requires (forall c <- w :: IsRegular(c)) && Breaks(rest)
    ensures RegularRun(w + rest) == |w|
  {
    hide IsRegular;
    if w == "" {
      assert w + rest == rest;
    } else {
      assert w[0] in w && (w + rest)[1..] == w[1..] + rest;
      RegularRunOf(w[1..], rest);
    }
  }

  lemma WordRead(w: string, rest: string)
    requires IsWord(w) && Breaks(rest)
    ensures Tokens(w + rest) == Then([Word(w)], Tokens(rest))
  {
    hide ReadLiteral, RegularRun;
    var bs := w + rest;
    assert bs[0] == w[0];
    WordLength(w, rest);
    assert bs[..|w|] == w && bs[|w|..] == rest;
  }

  lemma WordLength(w: string, rest: string)
    requires IsWord(w) && Breaks(rest)
    ensures !IsWhite(w[0]) && w[0] != '('
    ensures |w| == if w[0] == '/' then 1 + RegularRun((w + rest)[1..]) else RegularRun(w + rest)
  {
    if w[0] == '/' {
      assert (w + rest)[1..] == w[1..] + rest;
      RegularRunOf(w[1..], rest);
    } else {
      assert w[0] in w;
      RegularRunOf(w, rest);
    }
  }

  lemma WhiteSkipped(c: char, rest: string)
    requires IsWhite(c)
    ensures Tokens([c] + rest) == Tokens(rest)
  {
    assert ([c] + rest)[1..] == rest;
  }

  function AsTokens(ws: seq<string>): (t: seq<Token>)
    ensures |t| == |ws|
  {
    seq(|ws|, i requires 0 <= i < |ws| => Word(ws[i]))
  }

  lemma ThenTwice(a: seq<Token>, b: seq<Token>, r: Option<seq<Token>>)
    ensures Then(a, Then(b, r)) == Then(a + b, r)
  {
    if r.Some? {
      assert a + (b + r.value) == (a + b) + r.value;
    }
  }

  lemma {:induction false} WordsRead(ws: seq<string>, rest: string)
    requires (forall w <- ws :: IsWord(w)) && ws != [] && Breaks(rest)
    ensures Tokens(Join(" ", ws) + rest) == Then(AsTokens(ws), Tokens(rest))
  {
    hide Tokens, IsWord, Then;
    if |ws| == 1 {
      WordRead(ws[0], rest);
      assert AsTokens(ws) == [Word(ws[0])];
    } else {
      var tail := Join(" ", ws[1..]) + rest;
      assert Join(" ", ws) + rest == ws[0] + (" " + tail);
      WordRead(ws[0], " " + tail);
      WhiteSkipped(' ', tail);
      WordsRead(ws[1..], rest);
      ThenTwice([Word(ws[0])], AsTokens(ws[1..]), Tokens(rest));
      assert AsTokens(ws) == [Word(ws[0])] + AsTokens(ws[1..]);
    }
  }

  // ---- one operator -----------------------------------------------------------------------

  /** The words of an operator that shows nothing. */
  function WordsOf(c: Command, f: Formats): seq<string> {
    match c
    case BeginText => ["BT"]
    case Font(resource, size) => ["/" + resource, f.general(size), "Tf"]
    case Colour(rgb) => [f.fixed(rgb.0), f.fixed(rgb.1), f.fixed(rgb.2), "rg"]
    case Place(x, y) => ["1", "0", "0", "1", IntText(x), IntText(y), "Tm"]
    case Show(_) => []
    case EndText => ["ET"]
  }

  lemma JoinedFirst(first: string, later: seq<string>)
    requires later != []
    ensures Join(" ", [first] + later) == first + (" " + Join(" ", later))
  {
    assert ([first] + later)[1..] == later;
    assert first + " " + Join(" ", later) == first + (" " + Join(" ", later));
  }

  lemma JoinedOne(w: string)
    ensures Join(" ", [w]) == w
  {
  }

  lemma JoinedThree(a: string, b: string, c: string)
    ensures Join(" ", [a, b, c]) == a + " " + b + " " + c
  {
    hide Join;
    JoinedOne(c);
    JoinedFirst(b, [c]);
    JoinedFirst(a, [b, c]);
    assert [a] + [b, c] == [a, b, c] && [b] + [c] == [b, c];
  }

  lemma JoinedFour(a: string, b: string, c: string, d: string)
    ensures Join(" ", [a, b, c, d]) == a + " " + b + " " + c + " " + d
  {
    hide Join;
    JoinedThree(b, c, d);
    JoinedFirst(a, [b, c, d]);
    assert [a] + [b, c, d] == [a, b, c, d];
    assert a + (" " + (b + " " + c + " " + d)) == a + " " + b + " " + c + " " + d;
  }

  lemma JoinedMatrix(x: string, y: string)
    ensures Join(" ", ["1", "0", "0", "1", x, y, "Tm"]) == "1 0 0 1 " + x + " " + y + " Tm"
  {
    hide Join;
    JoinedFour("1", x, y, "Tm");
    JoinedFirst("0", ["1", x, y, "Tm"]);
    JoinedFirst("0", ["0", "1", x, y, "Tm"]);
    JoinedFirst("1", ["0", "0", "1", x, y, "Tm"]);
    assert ["0"] + ["1", x, y, "Tm"] == ["0", "1", x, y, "Tm"];
    assert ["0"] + ["0", "1", x, y, "Tm"] == ["0", "0", "1", x, y, "Tm"];
    assert ["1"] + ["0", "0", "1", x, y, "Tm"] == ["1", "0", "0", "1", x, y, "Tm"];
    var tail := x + " " + y + " Tm";
    assert "1" + " " + x + " " + y + " " + "Tm" == "1 " + tail;
    assert "1" + (" " + ("0" + (" " + ("0" + (" " + ("1 " + tail)))))) == "1 0 0 1 " + tail;
  }

  lemma OperatorIsWords(c: Command, f: Formats)
    requires !c.Show?
    ensures Operator(c, f) == Join(" ", WordsOf(c, f)) && WordsOf(c, f) != []
  {
    match c
    case Font(resource, size) =>
      JoinedThree("/" + resource, f.general(size), "Tf");
    case Colour(rgb) =>
      JoinedFour(f.fixed(rgb.0), f.fixed(rgb.1), f.fixed(rgb.2), "rg");
    case Place(x, y) =>
      JoinedMatrix(IntText(x), IntText(y));
    case _ =>
      JoinedOne("BT");
      JoinedOne("ET");
  }

  lemma NumeralIsWord(s: string)
    requires IsNumeral(s)
    ensures IsRegularWord(s) && !IsOperator(s)
  {
    forall c <- s
      ensures IsRegular(c)
    {
    }
    assert s[0] in s;
  }

  lemma IntegerIsNumeral(x: int)
    ensures IsNumeral(IntText(x)) && ReadInt(IntText(x)) == Some(x)
  {
    ParseDec(if x < 0 then -x else x);
    var d := Dec(if x < 0 then -x else x);
    assert d[0] in d && IntText(x)[0] in IntText(x);
    if x < 0 {
      assert IntText(x)[1..] == d;
    }
  }

  lemma FormattedIsNumeral(f: Formats, x: real)
    requires FormatsContract(f)
    ensures IsNumeral(f.fixed(x)) && IsNumeral(f.general(x))
  {
  }

  predicate NamesFont(c: Command) {
    c.Font? ==> IsRegularWord(c.resource)
  }

  lemma OperatorWords(c: Command, f: Formats)
    requires FormatsContract(f) && !c.Show? && NamesFont(c)
    ensures forall w <- WordsOf(c, f) :: IsWord(w)
  {
    hide IsNumeral, IsRegularWord, IsOperator, FormatsContract, IntText;
    FixedWords();
    match c
    case Font(resource, size) =>
      FormattedIsNumeral(f, size);
      NumeralIsWord(f.general(size));
      NameIsWord(resource);
    case Colour(rgb) =>
      FormattedIsNumeral(f, rgb.0);
      FormattedIsNumeral(f, rgb.1);
      FormattedIsNumeral(f, rgb.2);
      NumeralIsWord(f.fixed(rgb.0));
      NumeralIsWord(f.fixed(rgb.1));
      NumeralIsWord(f.fixed(rgb.2));
    case Place(x, y) =>
      IntegerIsNumeral(x);
      IntegerIsNumeral(y);
      NumeralIsWord(IntText(x));
      NumeralIsWord(IntText(y));
    case _ =>
  }

  lemma NameIsWord(resource: string)
    requires IsRegularWord(resource)
    ensures IsWord("/" + resource)
  {
    assert ("/" + resource)[1..] == resource;
  }

  lemma FixedWords()
    ensures IsRegularWord("BT") && IsRegularWord("ET") && IsRegularWord("Tf") && IsRegularWord("Tm")
    ensures IsRegularWord("rg") && IsRegularWord("Tj") && IsRegularWord("1") && IsRegularWord("0")
  {
  }

  lemma {:induction false} WordsAreAscii(ws: seq<string>)
    requires forall w <- ws :: IsWord(w)
    ensures forall c <- Join(" ", ws) :: c as int < 0x80
  {
    if ws != [] {
      assert ws[0] in ws && (ws[0][0] != '/' ==> IsRegularWord(ws[0]));
      assert forall c <- ws[0] :: c == ws[0][0] || c in ws[0][1..];
      assert forall c <- ws[0] :: IsRegular(c) || c == '/';
      if |ws| > 1 {
        assert forall w <- ws[1..] :: w in ws;
        WordsAreAscii(ws[1..]);
      }
    }
  }

  function TokensOf(c: Command, f: Formats): seq<Token> {
    if c.Show? then [Text(Utf8(EolNormalized(c.text))), Word("Tj")] else AsTokens(WordsOf(c, f))
  }

  lemma ShowEnds()
    ensures Utf8("(") == "(" && Utf8(") Tj") == ") Tj" && ")" + " Tj" == ") Tj"
  {
    AsciiStays("(");
    AsciiStays(") Tj");
  }

  lemma ShowBytes(text: string)
    ensures Utf8(ShowOperator(text)) == "(" + (Utf8(Escaped(text, SPECIAL)) + ")" + " Tj")
  {
    hide Utf8, Escaped, Replace;
    SequentialReplacesEscape(text, '(', ')');
    ShowEnds();
    hide Escape;
    var escaped := Escape(text);
    Utf8Concat("(" + escaped, ") Tj");
    Utf8Concat("(", escaped);
    assert Utf8(escaped) + ")" + " Tj" == Utf8(escaped) + (")" + " Tj");
    assert ("(" + Utf8(escaped)) + ") Tj" == "(" + (Utf8(escaped) + ") Tj");
  }

  lemma TextRead(operand: string, bytes: string, rest: string)
    requires ReadLiteral(operand, 0) == Some(Literal(bytes, rest)) && |rest| <= |operand|
    ensures Tokens("(" + operand) == Then([Text(bytes)], Tokens(rest))
  {
    assert ("(" + operand)[1..] == operand;
  }

  /** The operator that shows a text: its literal string and `Tj`. */
  lemma ShowTokens(text: string, rest: string)
    requires Breaks(rest)
    ensures Tokens(Utf8(ShowOperator(text)) + rest) ==
            Then([Text(Utf8(EolNormalized(text))), Word("Tj")], Tokens(rest))
  {
    hide ReadLiteral, Utf8, Escaped, EolNormalized, ShowOperator, Tokens, Then;
    ShowBytes(text);
    var operand, after := Utf8(Escaped(text, SPECIAL)), " " + ("Tj" + rest);
    assert Utf8(ShowOperator(text)) + rest == "(" + (operand + ")" + after);
    DrawnTextReadsBack(text, after);
    TextRead(operand + ")" + after, Utf8(EolNormalized(text)), after);
    WhiteSkipped(' ', "Tj" + rest);
    FixedWords();
    WordRead("Tj", rest);
    var shown := Text(Utf8(EolNormalized(text)));
    ThenTwice([shown], [Word("Tj")], Tokens(rest));
    assert [shown] + [Word("Tj")] == [shown, Word("Tj")];
  }

  lemma OperatorTokens(c: Command, f: Formats, rest: string)
    requires FormatsContract(f) && NamesFont(c) && Breaks(rest)
    ensures Tokens(Utf8(Operator(c, f)) + rest) == Then(TokensOf(c, f), Tokens(rest))
  {
    hide Tokens, Then, Utf8, IsWord, Operator, WordsOf;
    if c.Show? {
      assert Operator(c, f) == ShowOperator(c.text) by { ShowIs(c, f); }
      ShowTokens(c.text, rest);
    } else {
      OperatorIsWords(c, f);
      OperatorWords(c, f);
      WordsAreAscii(WordsOf(c, f));
      AsciiStays(Operator(c, f));
      WordsRead(WordsOf(c, f), rest);
    }
  }

  lemma ShowIs(c: Command, f: Formats)
    requires c.Show?
    ensures Operator(c, f) == ShowOperator(c.text)
  {
  }

  // ---- the whole stream -------------------------------------------------------------------

  function AllTokens(commands: seq<Command>, f: Formats): seq<Token> {
    if commands == [] then [] else TokensOf(commands[0], f) + AllTokens(commands[1..], f)
  }

  predicate NameFonts(commands: seq<Command>) {
    forall c <- commands :: NamesFont(c)
  }

  lemma {:induction false} StreamTokens(commands: seq<Command>, f: Formats)
    requires FormatsContract(f) && NameFonts(commands)
    ensures Tokens(StreamBytes(commands, f)) == Some(AllTokens(commands, f))
  {
    hide Operator, TokensOf, FormatsContract, Tokens, NamesFont;
    if commands == [] {
      NoTokens(f);
    } else {
      var head, later := commands[0], commands[1..];
      assert head in commands && forall c <- later :: c in commands;
      StreamTokens(later, f);
      assert commands == [head] + later;
      StreamStep(head, later, f);
      OperatorTokens(head, f, if later == [] then "" else "\n" + StreamBytes(later, f));
      if later == [] {
        NoTokens(f);
        assert Utf8(Operator(head, f)) + "" == Utf8(Operator(head, f));
      } else {
        WhiteSkipped('\n', StreamBytes(later, f));
      }
    }
  }

  lemma NoTokens(f: Formats)
    ensures StreamBytes([], f) == "" && Tokens("") == Some([])
  {
  }

  lemma StreamStep(head: Command, later: seq<Command>, f: Formats)
    ensures StreamBytes([head] + later, f) ==
            Utf8(Operator(head, f)) + if later == [] then "" else "\n" + StreamBytes(later, f)
  {
    hide Operator, Utf8;
    assert ([head] + later)[1..] == later;
    var tail := Operators(later, f);
    assert Operators([head] + later, f) == [Operator(head, f)] + tail;
    JoinStep(Operator(head, f), tail);
    if later == [] {
      assert Utf8(Operator(head, f)) + "" == Utf8(Operator(head, f));
    } else {
      JoinedBytes(Operator(head, f), Join("\n", tail));
    }
  }

  lemma JoinStep(first: string, later: seq<string>)
    ensures Join("\n", [first] + later) == if later == [] then first else first + "\n" + Join("\n", later)
  {
    assert ([first] + later)[1..] == later;
  }

  lemma JoinedBytes(first: string, later: string)
    ensures Utf8(first + "\n" + later) == Utf8(first) + ("\n" + Utf8(later))
  {
    AsciiStays("\n");
    hide Utf8;
    Utf8Concat(first + "\n", later);
    Utf8Concat(first, "\n");
  }

  // ---- running it -------------------------------------------------------------------------

  function GraphicsAfter(c: Command, g: Graphics, f: Formats): Graphics {
    match c
    case Font(resource, size) => g.(font := resource, size := f.general(size))
    case Colour(rgb) => g.(colour := Some([f.fixed(rgb.0), f.fixed(rgb.1), f.fixed(rgb.2)]))
    case Place(x, y) => g.(x := x, y := y)
    case _ => g
  }

  function MarksOf(c: Command, g: Graphics): seq<Mark> {
    if c.Show? then [Mark(g, Utf8(EolNormalized(c.text)))] else []
  }

  function AllMarks(commands: seq<Command>, g: Graphics, f: Formats): seq<Mark> {
    if commands == [] then []
    else MarksOf(commands[0], g) + AllMarks(commands[1..], GraphicsAfter(commands[0], g, f), f)
  }

  lemma {:induction false} OperandsPushed(ws: seq<string>, rest: seq<Token>, stack: seq<Token>, g: Graphics)
    requires forall w <- ws :: !IsOperator(w)
    ensures Run(AsTokens(ws) + rest, stack, g) == Run(rest, stack + AsTokens(ws), g)
  {
    hide IsOperator;
    if ws == [] {
      assert AsTokens(ws) + rest == rest && stack + AsTokens(ws) == stack;
    } else {
      assert ws[0] in ws;
      assert (AsTokens(ws) + rest)[1..] == AsTokens(ws[1..]) + rest;
      OperandsPushed(ws[1..], rest, stack + [Word(ws[0])], g);
      assert stack + [Word(ws[0])] + AsTokens(ws[1..]) == stack + AsTokens(ws);
    }
  }

  lemma OperatorRuns(operands: seq<string>, w: string, rest: seq<Token>, g: Graphics)
    requires (forall o <- operands :: !IsOperator(o)) && IsOperator(w)
    ensures Run(AsTokens(operands + [w]) + rest, [], g) ==
            var r := Execute(w, AsTokens(operands), g);
            if r.None? then None else Also(r.value.1, Run(rest, [], r.value.0))
  {
    hide IsOperator, Execute;
    assert AsTokens(operands + [w]) + rest == AsTokens(operands) + ([Word(w)] + rest);
    OperandsPushed(operands, [Word(w)] + rest, [], g);
    assert [] + AsTokens(operands) == AsTokens(operands);
    assert ([Word(w)] + rest)[1..] == rest;
  }

  lemma FontRuns(resource: string, size: string, g: Graphics)
    ensures Execute("Tf", AsTokens(["/" + resource, size]), g) == Some((g.(font := resource, size := size), []))
  {
    assert ("/" + resource)[1..] == resource;
  }

  lemma ColourRuns(a: string, b: string, c: string, g: Graphics)
    ensures Execute("rg", AsTokens([a, b, c]), g) == Some((g.(colour := Some([a, b, c])), []))
  {
  }

  lemma PlaceRuns(x: int, y: int, g: Graphics)
    ensures Execute("Tm", AsTokens(["1", "0", "0", "1", IntText(x), IntText(y)]), g) == Some((g.(x := x, y := y), []))
  {
    hide IntText, ReadInt;
    IntegerIsNumeral(x);
    IntegerIsNumeral(y);
    var stack := AsTokens(["1", "0", "0", "1", IntText(x), IntText(y)]);
    assert stack[..4] == [Word("1"), Word("0"), Word("0"), Word("1")];
  }

  lemma NoOperators()
    ensures !IsOperator("1") && !IsOperator("0")
  {
  }

  lemma NameIsNoOperator(resource: string)
    ensures !IsOperator("/" + resource)
  {
    assert ("/" + resource)[0] == '/';
  }

  /** An operator has the effect that its command stands for. */
  lemma CommandRuns(c: Command, f: Formats, rest: seq<Token>, g: Graphics)
    requires FormatsContract(f) && NamesFont(c)
    ensures Run(TokensOf(c, f) + rest, [], g) == Also(MarksOf(c, g), Run(rest, [], GraphicsAfter(c, g, f)))
  {
    hide IsNumeral, FormatsContract, IntText, IsRegularWord;
    NoOperators();
    match c
    case BeginText => OperatorRuns([], "BT", rest, g);
    case EndText => OperatorRuns([], "ET", rest, g);
    case Font(resource, size) => FontCommandRuns(resource, size, f, rest, g);
    case Colour(rgb) => ColourCommandRuns(rgb, f, rest, g);
    case Place(x, y) => PlaceCommandRuns(x, y, f, rest, g);
    case Show(text) => ShowCommandRuns(text, rest, g);
  }

  lemma FontCommandRuns(resource: string, size: real, f: Formats, rest: seq<Token>, g: Graphics)
    requires FormatsContract(f)
    ensures Run(TokensOf(Font(resource, size), f) + rest, [], g) ==
            Also([], Run(rest, [], GraphicsAfter(Font(resource, size), g, f)))
  {
    hide FormatsContract, IsNumeral, Run, Execute, IsOperator;
    IsFixedOperators();
    FormattedIsNumeral(f, size);
    NumeralIsWord(f.general(size));
    NameIsNoOperator(resource);
    OperatorRuns(["/" + resource, f.general(size)], "Tf", rest, g);
    FontRuns(resource, f.general(size), g);
    assert ["/" + resource, f.general(size)] + ["Tf"] == ["/" + resource, f.general(size), "Tf"];
  }

  lemma IsFixedOperators()
    ensures IsOperator("Tf") && IsOperator("Tm") && IsOperator("rg") && IsOperator("Tj")
  {
  }

  lemma ColourCommandRuns(rgb: Rgb, f: Formats, rest: seq<Token>, g: Graphics)
    requires FormatsContract(f)
    ensures Run(TokensOf(Colour(rgb), f) + rest, [], g) == Also([], Run(rest, [], GraphicsAfter(Colour(rgb), g, f)))
  {
    hide FormatsContract, IsNumeral, Run, Execute, IsOperator;
    IsFixedOperators();
    var ws := [f.fixed(rgb.0), f.fixed(rgb.1), f.fixed(rgb.2)];
    FormattedIsNumeral(f, rgb.0);
    FormattedIsNumeral(f, rgb.1);
    FormattedIsNumeral(f, rgb.2);
    NumeralIsWord(ws[0]);
    NumeralIsWord(ws[1]);
    NumeralIsWord(ws[2]);
    OperatorRuns(ws, "rg", rest, g);
    ColourRuns(ws[0], ws[1], ws[2], g);
    assert ws + ["rg"] == [ws[0], ws[1], ws[2], "rg"];
  }

  lemma PlaceCommandRuns(x: int, y: int, f: Formats, rest: seq<Token>, g: Graphics)
    ensures Run(TokensOf(Place(x, y), f) + rest, [], g) == Also([], Run(rest, [], g.(x := x, y := y)))
  {
    hide IsNumeral, Run, Execute, IsOperator, IntText;
    IsFixedOperators();
    NoOperators();
    IntegerIsNumeral(x);
    IntegerIsNumeral(y);
    NumeralIsWord(IntText(x));
    NumeralIsWord(IntText(y));
    var ws := ["1", "0", "0", "1", IntText(x), IntText(y)];
    OperatorRuns(ws, "Tm", rest, g);
    PlaceRuns(x, y, g);
    assert ws + ["Tm"] == ["1", "0", "0", "1", IntText(x), IntText(y), "Tm"];
  }

  lemma ShowCommandRuns(text: string, rest: seq<Token>, g: Graphics)
    ensures Run([Text(Utf8(EolNormalized(text))), Word("Tj")] + rest, [], g) ==
            Also([Mark(g, Utf8(EolNormalized(text)))], Run(rest, [], g))
  {
    hide Utf8, EolNormalized;
    var shown := Text(Utf8(EolNormalized(text)));
    assert ([shown, Word("Tj")] + rest)[1..] == [Word("Tj")] + rest;
    assert ([Word("Tj")] + rest)[1..] == rest;
    assert [] + [shown] == [shown];
  }

  lemma AlsoMore(marks: seq<Mark>, more: seq<Mark>)
    ensures Also(marks, Some(more)) == Some(marks + more)
  {
  }

  lemma {:induction false} TokensRun(commands: seq<Command>, f: Formats, g: Graphics)
    requires FormatsContract(f) && NameFonts(commands)
    ensures Run(AllTokens(commands, f), [], g) == Some(AllMarks(commands, g, f))
  {
    hide FormatsContract, NamesFont, TokensOf, MarksOf, GraphicsAfter;
    if commands != [] {
      var head, later := commands[0], commands[1..];
      assert head in commands && forall c <- later :: c in commands;
      TokensRun(later, f, GraphicsAfter(head, g, f));
      CommandRuns(head, f, AllTokens(later, f), g);
      AlsoMore(MarksOf(head, g), AllMarks(later, GraphicsAfter(head, g, f), f));
    }
  }

  /** A page's stream reads as its commands: every text, with its line ends normalised, where and in the
      colour and font that the commands before it have set. */
  lemma StreamReads(commands: seq<Command>, f: Formats)
    requires FormatsContract(f) && NameFonts(commands)
    ensures ReadContent(StreamBytes(commands, f)) == Some(AllMarks(commands, START, f))
  {
    hide FormatsContract, NameFonts, Tokens, Run, AllMarks, StreamBytes;
    StreamTokens(commands, f);
    TokensRun(commands, f, START);
  }

  // ---- the marks are the spots ------------------------------------------------------------

  function Formatted(rgb: Option<Rgb>, f: Formats): Option<seq<string>> {
    if rgb.None? then None else Some([f.fixed(rgb.value.0), f.fixed(rgb.value.1), f.fixed(rgb.value.2)])
  }

  /** A spot in the file. */
  function MarkFor(s: Spot, font: string, size: string, f: Formats): Mark {
    Mark(GraphicsFor(s.pen, font, size, f), Utf8(EolNormalized(s.text)))
  }

  function MarksFor(spots: seq<Spot>, font: string, size: string, f: Formats): (marks: seq<Mark>)
    ensures |marks| == |spots|
  {
    seq(|spots|, i requires 0 <= i < |spots| => MarkFor(spots[i], font, size, f))
  }

  function GraphicsFor(pen: Pen, font: string, size: string, f: Formats): Graphics {
    Graphics(pen.x, pen.y, Formatted(pen.rgb, f), font, size)
  }

  /** One command, on the marks and on the spots. */
  lemma CommandMarks(c: Command, pen: Pen, font: string, size: string, f: Formats)
    requires !c.Font?
    ensures MarksOf(c, GraphicsFor(pen, font, size, f)) ==
            MarksFor(if c.Show? then [Spot(pen, c.text)] else [], font, size, f)
    ensures GraphicsAfter(c, GraphicsFor(pen, font, size, f), f) == GraphicsFor(PenAfter(c, pen), font, size, f)
  {
    hide Utf8, EolNormalized;
  }

  lemma MarksForMore(a: seq<Spot>, b: seq<Spot>, font: string, size: string, f: Formats)
    ensures MarksFor(a + b, font, size, f) == MarksFor(a, font, size, f) + MarksFor(b, font, size, f)
  {
    hide MarkFor;
  }

  lemma {:induction false} MarksAreSpots(commands: seq<Command>, pen: Pen, font: string, size: string, f: Formats)
    requires forall c <- commands :: !c.Font?
    ensures AllMarks(commands, GraphicsFor(pen, font, size, f), f) == MarksFor(Spots(commands, pen), font, size, f)
  {
    hide MarksFor, MarksOf, GraphicsAfter, GraphicsFor, PenAfter;
    if commands == [] {
      NoMarks(font, size, f);
    } else {
      var head, later := commands[0], commands[1..];
      assert head in commands && forall c <- later :: c in commands;
      MarksAreSpots(later, PenAfter(head, pen), font, size, f);
      CommandMarks(head, pen, font, size, f);
      MarksForMore(if head.Show? then [Spot(pen, head.text)] else [], Spots(later, PenAfter(head, pen)), font, size, f);
    }
  }

  lemma NoMarks(font: string, size: string, f: Formats)
    ensures MarksFor([], font, size, f) == []
  {
  }
}
