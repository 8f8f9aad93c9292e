/** The templates of the golden cases. Each is spelled as the source texts
    of its segments, concatenated, and comes with the way the cursor splits
    it, one segment at a time. */
module Templates {
  import opened Grammar
  import opened Lexer

  /** "Hello %Planet!" */
  const HelloPlanet := "Hello " + "%Planet" + "!"

  /** How the cursor splits "Hello %Planet!" with token '%'. */
  lemma LexHelloPlanet(t: char)
    requires t == '%'
    ensures Lex(HelloPlanet, t, 0) == [Text("Hello ")] + Lex(HelloPlanet, t, 6)
    ensures Lex(HelloPlanet, t, 6) == [Placeholder(Directive("", "Planet"))] + Lex(HelloPlanet, t, 13)
    ensures Lex(HelloPlanet, t, 13) == [Text("!")] + Lex(HelloPlanet, t, 14)
    ensures Lex(HelloPlanet, t, 14) == []
  {
    var s := HelloPlanet;
    assert LexText(s, t, 13, 14) == [Text(s[13..14])] + Lex(s, t, 14);
    assert s[13..14] == "!";
    assert LexKey(s, t, 6, 7, 13) == [Placeholder(Directive(s[7..7], s[7..13]))] + Lex(s, t, 13);
    assert LexKey(s, t, 6, 7, 11) == [Placeholder(Directive(s[7..7], s[7..13]))] + Lex(s, t, 13);
    assert LexKey(s, t, 6, 7, 9) == [Placeholder(Directive(s[7..7], s[7..13]))] + Lex(s, t, 13);
    assert LexKey(s, t, 6, 7, 7) == [Placeholder(Directive(s[7..7], s[7..13]))] + Lex(s, t, 13);
    assert LexFill(s, t, 6, 7, 14) == [Placeholder(Directive(s[7..7], s[7..13]))] + Lex(s, t, 13);
    assert LexFill(s, t, 6, 7, 12) == [Placeholder(Directive(s[7..7], s[7..13]))] + Lex(s, t, 13);
    assert LexFill(s, t, 6, 7, 10) == [Placeholder(Directive(s[7..7], s[7..13]))] + Lex(s, t, 13);
    assert LexFill(s, t, 6, 7, 8) == [Placeholder(Directive(s[7..7], s[7..13]))] + Lex(s, t, 13);
    assert LexToken(s, t, 6) == [Placeholder(Directive(s[7..7], s[7..13]))] + Lex(s, t, 13);
    assert s[7..7] == "";
    assert s[7..13] == "Planet";
    assert LexText(s, t, 0, 6) == [Text(s[0..6])] + Lex(s, t, 6);
    assert LexText(s, t, 0, 4) == [Text(s[0..6])] + Lex(s, t, 6);
    assert LexText(s, t, 0, 2) == [Text(s[0..6])] + Lex(s, t, 6);
    assert s[0..6] == "Hello ";
  }

  /** "%Number1 + %Number2 = %Number3" */
  const Numbers := "%Number1" + " + " + "%Number2" + " = " + "%Number3"

  /** How the cursor splits "%Number1 + %Number2 = %Number3" with token '%'. */
  lemma LexNumbers(t: char)
    requires t == '%'
    ensures Lex(Numbers, t, 0) == [Placeholder(Directive("", "Number1"))] + Lex(Numbers, t, 8)
    ensures Lex(Numbers, t, 8) == [Text(" + ")] + Lex(Numbers, t, 11)
  {
    var s := Numbers;
    assert LexText(s, t, 8, 11) == [Text(s[8..11])] + Lex(s, t, 11);
    assert LexText(s, t, 8, 9) == [Text(s[8..11])] + Lex(s, t, 11);
    assert s[8..11] == " + ";
    assert LexBareKey(s, t, 0, 8) == [Placeholder(Directive("", s[1..8]))] + Lex(s, t, 8);
    assert LexBareKey(s, t, 0, 6) == [Placeholder(Directive("", s[1..8]))] + Lex(s, t, 8);
    assert LexBareKey(s, t, 0, 4) == [Placeholder(Directive("", s[1..8]))] + Lex(s, t, 8);
    assert LexBareKey(s, t, 0, 2) == [Placeholder(Directive("", s[1..8]))] + Lex(s, t, 8);
    assert LexKey(s, t, 0, 8, 8) == [Placeholder(Directive("", s[1..8]))] + Lex(s, t, 8);
    assert LexWidth(s, t, 0, 7) == [Placeholder(Directive("", s[1..8]))] + Lex(s, t, 8);
    assert LexFill(s, t, 0, 1, 6) == [Placeholder(Directive("", s[1..8]))] + Lex(s, t, 8);
    assert LexFill(s, t, 0, 1, 4) == [Placeholder(Directive("", s[1..8]))] + Lex(s, t, 8);
    assert LexFill(s, t, 0, 1, 2) == [Placeholder(Directive("", s[1..8]))] + Lex(s, t, 8);
    assert LexToken(s, t, 0) == [Placeholder(Directive("", s[1..8]))] + Lex(s, t, 8);
    assert s[1..8] == "Number1";
  }

  lemma LexNumbersFrom11(t: char)
    requires t == '%'
    ensures Lex(Numbers, t, 11) == [Placeholder(Directive("", "Number2"))] + Lex(Numbers, t, 19)
    ensures Lex(Numbers, t, 19) == [Text(" = ")] + Lex(Numbers, t, 22)
  {
    var s := Numbers;
    assert LexText(s, t, 19, 22) == [Text(s[19..22])] + Lex(s, t, 22);
    assert LexText(s, t, 19, 20) == [Text(s[19..22])] + Lex(s, t, 22);
    assert s[19..22] == " = ";
    assert LexBareKey(s, t, 11, 19) == [Placeholder(Directive("", s[12..19]))] + Lex(s, t, 19);
    assert LexBareKey(s, t, 11, 17) == [Placeholder(Directive("", s[12..19]))] + Lex(s, t, 19);
    assert LexBareKey(s, t, 11, 15) == [Placeholder(Directive("", s[12..19]))] + Lex(s, t, 19);
    assert LexBareKey(s, t, 11, 13) == [Placeholder(Directive("", s[12..19]))] + Lex(s, t, 19);
    assert LexKey(s, t, 11, 19, 19) == [Placeholder(Directive("", s[12..19]))] + Lex(s, t, 19);
    assert LexWidth(s, t, 11, 18) == [Placeholder(Directive("", s[12..19]))] + Lex(s, t, 19);
    assert LexFill(s, t, 11, 12, 17) == [Placeholder(Directive("", s[12..19]))] + Lex(s, t, 19);
    assert LexFill(s, t, 11, 12, 15) == [Placeholder(Directive("", s[12..19]))] + Lex(s, t, 19);
    assert LexFill(s, t, 11, 12, 13) == [Placeholder(Directive("", s[12..19]))] + Lex(s, t, 19);
    assert LexToken(s, t, 11) == [Placeholder(Directive("", s[12..19]))] + Lex(s, t, 19);
    assert s[12..19] == "Number2";
  }

  lemma LexNumbersFrom22(t: char)
    requires t == '%'
    ensures Lex(Numbers, t, 22) == [Placeholder(Directive("", "Number3"))] + Lex(Numbers, t, 30)
    ensures Lex(Numbers, t, 30) == []
  {
    var s := Numbers;
    assert LexBareKey(s, t, 22, 30) == [Placeholder(Directive("", s[23..30]))] + Lex(s, t, 30);
    assert LexBareKey(s, t, 22, 28) == [Placeholder(Directive("", s[23..30]))] + Lex(s, t, 30);
    assert LexBareKey(s, t, 22, 26) == [Placeholder(Directive("", s[23..30]))] + Lex(s, t, 30);
    assert LexBareKey(s, t, 22, 24) == [Placeholder(Directive("", s[23..30]))] + Lex(s, t, 30);
    assert LexKey(s, t, 22, 30, 30) == [Placeholder(Directive("", s[23..30]))] + Lex(s, t, 30);
    assert LexWidth(s, t, 22, 29) == [Placeholder(Directive("", s[23..30]))] + Lex(s, t, 30);
    assert LexFill(s, t, 22, 23, 28) == [Placeholder(Directive("", s[23..30]))] + Lex(s, t, 30);
    assert LexFill(s, t, 22, 23, 26) == [Placeholder(Directive("", s[23..30]))] + Lex(s, t, 30);
    assert LexFill(s, t, 22, 23, 24) == [Placeholder(Directive("", s[23..30]))] + Lex(s, t, 30);
    assert LexToken(s, t, 22) == [Placeholder(Directive("", s[23..30]))] + Lex(s, t, 30);
    assert s[23..30] == "Number3";
  }

  /** "%Planets" */
  const Planets := "%Planets"

  /** How the cursor splits "%Planets" with token '%'. */
  lemma LexPlanets(t: char)
    requires t == '%'
    ensures Lex(Planets, t, 0) == [Placeholder(Directive("", "Planets"))] + Lex(Planets, t, 8)
    ensures Lex(Planets, t, 8) == []
  {
    var s := Planets;
    assert LexKey(s, t, 0, 1, 8) == [Placeholder(Directive(s[1..1], s[1..8]))] + Lex(s, t, 8);
    assert LexKey(s, t, 0, 1, 6) == [Placeholder(Directive(s[1..1], s[1..8]))] + Lex(s, t, 8);
    assert LexKey(s, t, 0, 1, 4) == [Placeholder(Directive(s[1..1], s[1..8]))] + Lex(s, t, 8);
    assert LexKey(s, t, 0, 1, 2) == [Placeholder(Directive(s[1..1], s[1..8]))] + Lex(s, t, 8);
    assert LexWidth(s, t, 0, 1) == [Placeholder(Directive(s[1..1], s[1..8]))] + Lex(s, t, 8);
    assert LexFill(s, t, 0, 1, 7) == [Placeholder(Directive(s[1..1], s[1..8]))] + Lex(s, t, 8);
    assert LexFill(s, t, 0, 1, 5) == [Placeholder(Directive(s[1..1], s[1..8]))] + Lex(s, t, 8);
    assert LexFill(s, t, 0, 1, 3) == [Placeholder(Directive(s[1..1], s[1..8]))] + Lex(s, t, 8);
    assert LexFill(s, t, 0, 1, 1) == [Placeholder(Directive(s[1..1], s[1..8]))] + Lex(s, t, 8);
    assert s[1..1] == "";
    assert s[1..8] == "Planets";
  }

  /** "%1" */
  const DigitKey := "%" + "1"

  /** How the cursor splits "%1" with token '%'. */
  lemma LexDigitKey(t: char)
    requires t == '%'
    ensures Lex(DigitKey, t, 0) == [Text([t])] + Lex(DigitKey, t, 1)
    ensures Lex(DigitKey, t, 1) == [Text("1")] + Lex(DigitKey, t, 2)
    ensures Lex(DigitKey, t, 2) == []
  {
    var s := DigitKey;
    assert LexText(s, t, 1, 2) == [Text(s[1..2])] + Lex(s, t, 2);
    assert s[1..2] == "1";
    assert LexBareKey(s, t, 0, 1) == [Text([t])] + Lex(s, t, 1);
    assert LexWidth(s, t, 0, 2) == [Text([t])] + Lex(s, t, 1);
    assert LexFill(s, t, 0, 1, 1) == [Text([t])] + Lex(s, t, 1);
  }

  /** "%value" */
  const ValueKey := "%value"

  /** How the cursor splits "%value" with token '%'. */
  lemma LexValueKey(t: char)
    requires t == '%'
    ensures Lex(ValueKey, t, 0) == [Placeholder(Directive("", "value"))] + Lex(ValueKey, t, 6)
    ensures Lex(ValueKey, t, 6) == []
  {
    var s := ValueKey;
    assert LexKey(s, t, 0, 1, 6) == [Placeholder(Directive(s[1..1], s[1..6]))] + Lex(s, t, 6);
    assert LexKey(s, t, 0, 1, 4) == [Placeholder(Directive(s[1..1], s[1..6]))] + Lex(s, t, 6);
    assert LexKey(s, t, 0, 1, 2) == [Placeholder(Directive(s[1..1], s[1..6]))] + Lex(s, t, 6);
    assert LexWidth(s, t, 0, 1) == [Placeholder(Directive(s[1..1], s[1..6]))] + Lex(s, t, 6);
    assert LexFill(s, t, 0, 1, 5) == [Placeholder(Directive(s[1..1], s[1..6]))] + Lex(s, t, 6);
    assert LexFill(s, t, 0, 1, 3) == [Placeholder(Directive(s[1..1], s[1..6]))] + Lex(s, t, 6);
    assert LexFill(s, t, 0, 1, 1) == [Placeholder(Directive(s[1..1], s[1..6]))] + Lex(s, t, 6);
    assert s[1..1] == "";
    assert s[1..6] == "value";
  }

  /** "%.0value" */
  const FirstValue := "%.0value"

  /** How the cursor splits "%.0value" with token '%'. */
  lemma LexFirstValue(t: char)
    requires t == '%'
    ensures Lex(FirstValue, t, 0) == [Placeholder(Directive(".0", "value"))] + Lex(FirstValue, t, 8)
    ensures Lex(FirstValue, t, 8) == []
  {
    var s := FirstValue;
    assert LexKey(s, t, 0, 3, 8) == [Placeholder(Directive(s[1..3], s[3..8]))] + Lex(s, t, 8);
    assert LexKey(s, t, 0, 3, 6) == [Placeholder(Directive(s[1..3], s[3..8]))] + Lex(s, t, 8);
    assert LexKey(s, t, 0, 3, 4) == [Placeholder(Directive(s[1..3], s[3..8]))] + Lex(s, t, 8);
    assert LexPrecision(s, t, 0, 3) == [Placeholder(Directive(s[1..3], s[3..8]))] + Lex(s, t, 8);
    assert LexWidth(s, t, 0, 1) == [Placeholder(Directive(s[1..3], s[3..8]))] + Lex(s, t, 8);
    assert LexToken(s, t, 0) == [Placeholder(Directive(s[1..3], s[3..8]))] + Lex(s, t, 8);
    assert s[1..3] == ".0";
    assert s[3..8] == "value";
  }

  /** "Foo % Bar" */
  const LoneToken := "Foo " + "%" + " Bar"

  /** How the cursor splits "Foo % Bar" with token '%'. */
  lemma LexLoneToken(t: char)
    requires t == '%'
    ensures Lex(LoneToken, t, 0) == [Text("Foo ")] + Lex(LoneToken, t, 4)
    ensures Lex(LoneToken, t, 4) == [Text([t])] + Lex(LoneToken, t, 5)
    ensures Lex(LoneToken, t, 5) == [Text(" Bar")] + Lex(LoneToken, t, 9)
    ensures Lex(LoneToken, t, 9) == []
  {
    var s := LoneToken;
    assert LexText(s, t, 5, 9) == [Text(s[5..9])] + Lex(s, t, 9);
    assert LexText(s, t, 5, 7) == [Text(s[5..9])] + Lex(s, t, 9);
    assert s[5..9] == " Bar";
    assert LexBareKey(s, t, 4, 5) == [Text([t])] + Lex(s, t, 5);
    assert LexWidth(s, t, 4, 5) == [Text([t])] + Lex(s, t, 5);
    assert LexFill(s, t, 4, 5, 8) == [Text([t])] + Lex(s, t, 5);
    assert LexFill(s, t, 4, 5, 6) == [Text([t])] + Lex(s, t, 5);
    assert LexToken(s, t, 4) == [Text([t])] + Lex(s, t, 5);
    assert LexText(s, t, 0, 4) == [Text(s[0..4])] + Lex(s, t, 4);
    assert LexText(s, t, 0, 2) == [Text(s[0..4])] + Lex(s, t, 4);
    assert s[0..4] == "Foo ";
  }

  /** "Foo %% Bar" */
  const EscapedToken := "Foo " + "%%" + " Bar"

  /** How the cursor splits "Foo %% Bar" with token '%'. */
  lemma LexEscapedToken(t: char)
    requires t == '%'
    ensures Lex(EscapedToken, t, 0) == [Text("Foo ")] + Lex(EscapedToken, t, 4)
    ensures Lex(EscapedToken, t, 4) == [Escape] + Lex(EscapedToken, t, 6)
    ensures Lex(EscapedToken, t, 6) == [Text(" Bar")] + Lex(EscapedToken, t, 10)
    ensures Lex(EscapedToken, t, 10) == []
  {
    var s := EscapedToken;
    assert LexText(s, t, 6, 10) == [Text(s[6..10])] + Lex(s, t, 10);
    assert LexText(s, t, 6, 8) == [Text(s[6..10])] + Lex(s, t, 10);
    assert s[6..10] == " Bar";
    assert LexBareKey(s, t, 4, 5) == [Escape] + Lex(s, t, 6);
    assert LexWidth(s, t, 4, 5) == [Escape] + Lex(s, t, 6);
    assert LexFill(s, t, 4, 5, 9) == [Escape] + Lex(s, t, 6);
    assert LexFill(s, t, 4, 5, 7) == [Escape] + Lex(s, t, 6);
    assert LexFill(s, t, 4, 5, 5) == [Escape] + Lex(s, t, 6);
    assert LexText(s, t, 0, 4) == [Text(s[0..4])] + Lex(s, t, 4);
    assert LexText(s, t, 0, 2) == [Text(s[0..4])] + Lex(s, t, 4);
    assert s[0..4] == "Foo ";
  }

  /** "Foo %Percent% Bar" */
  const TokenAfterKey := "Foo " + "%Percent" + "%" + " Bar"

  /** How the cursor splits "Foo %Percent% Bar" with token '%'. */
  lemma LexTokenAfterKey(t: char)
    requires t == '%'
    ensures Lex(TokenAfterKey, t, 0) == [Text("Foo ")] + Lex(TokenAfterKey, t, 4)
    ensures Lex(TokenAfterKey, t, 4) == [Placeholder(Directive("", "Percent"))] + Lex(TokenAfterKey, t, 12)
  {
    var s := TokenAfterKey;
    assert LexKey(s, t, 4, 5, 12) == [Placeholder(Directive(s[5..5], s[5..12]))] + Lex(s, t, 12);
    assert LexKey(s, t, 4, 5, 10) == [Placeholder(Directive(s[5..5], s[5..12]))] + Lex(s, t, 12);
    assert LexKey(s, t, 4, 5, 8) == [Placeholder(Directive(s[5..5], s[5..12]))] + Lex(s, t, 12);
    assert LexKey(s, t, 4, 5, 6) == [Placeholder(Directive(s[5..5], s[5..12]))] + Lex(s, t, 12);
    assert LexWidth(s, t, 4, 5) == [Placeholder(Directive(s[5..5], s[5..12]))] + Lex(s, t, 12);
    assert LexFill(s, t, 4, 5, 16) == [Placeholder(Directive(s[5..5], s[5..12]))] + Lex(s, t, 12);
    assert LexFill(s, t, 4, 5, 14) == [Placeholder(Directive(s[5..5], s[5..12]))] + Lex(s, t, 12);
    assert LexFill(s, t, 4, 5, 12) == [Placeholder(Directive(s[5..5], s[5..12]))] + Lex(s, t, 12);
    assert LexFill(s, t, 4, 5, 10) == [Placeholder(Directive(s[5..5], s[5..12]))] + Lex(s, t, 12);
    assert LexFill(s, t, 4, 5, 8) == [Placeholder(Directive(s[5..5], s[5..12]))] + Lex(s, t, 12);
    assert LexFill(s, t, 4, 5, 6) == [Placeholder(Directive(s[5..5], s[5..12]))] + Lex(s, t, 12);
    assert LexToken(s, t, 4) == [Placeholder(Directive(s[5..5], s[5..12]))] + Lex(s, t, 12);
    assert s[5..5] == "";
    assert s[5..12] == "Percent";
    assert LexText(s, t, 0, 4) == [Text(s[0..4])] + Lex(s, t, 4);
    assert LexText(s, t, 0, 2) == [Text(s[0..4])] + Lex(s, t, 4);
    assert s[0..4] == "Foo ";
  }

  lemma LexTokenAfterKeyFrom12(t: char)
    requires t == '%'
    ensures Lex(TokenAfterKey, t, 12) == [Text([t])] + Lex(TokenAfterKey, t, 13)
    ensures Lex(TokenAfterKey, t, 13) == [Text(" Bar")] + Lex(TokenAfterKey, t, 17)
    ensures Lex(TokenAfterKey, t, 17) == []
  {
    var s := TokenAfterKey;
    assert LexText(s, t, 13, 17) == [Text(s[13..17])] + Lex(s, t, 17);
    assert LexText(s, t, 13, 15) == [Text(s[13..17])] + Lex(s, t, 17);
    assert s[13..17] == " Bar";
    assert LexBareKey(s, t, 12, 13) == [Text([t])] + Lex(s, t, 13);
    assert LexWidth(s, t, 12, 13) == [Text([t])] + Lex(s, t, 13);
    assert LexFill(s, t, 12, 13, 16) == [Text([t])] + Lex(s, t, 13);
    assert LexFill(s, t, 12, 13, 14) == [Text([t])] + Lex(s, t, 13);
    assert LexToken(s, t, 12) == [Text([t])] + Lex(s, t, 13);
  }

  /** "Foo %Percent%% Bar" */
  const EscapeAfterKey := "Foo " + "%Percent" + "%%" + " Bar"

  /** How the cursor splits "Foo %Percent%% Bar" with token '%'. */
  lemma LexEscapeAfterKey(t: char)
    requires t == '%'
    ensures Lex(EscapeAfterKey, t, 0) == [Text("Foo ")] + Lex(EscapeAfterKey, t, 4)
    ensures Lex(EscapeAfterKey, t, 4) == [Placeholder(Directive("", "Percent"))] + Lex(EscapeAfterKey, t, 12)
  {
    var s := EscapeAfterKey;
    assert LexKey(s, t, 4, 5, 12) == [Placeholder(Directive(s[5..5], s[5..12]))] + Lex(s, t, 12);
    assert LexKey(s, t, 4, 5, 10) == [Placeholder(Directive(s[5..5], s[5..12]))] + Lex(s, t, 12);
    assert LexKey(s, t, 4, 5, 8) == [Placeholder(Directive(s[5..5], s[5..12]))] + Lex(s, t, 12);
    assert LexKey(s, t, 4, 5, 6) == [Placeholder(Directive(s[5..5], s[5..12]))] + Lex(s, t, 12);
    assert LexWidth(s, t, 4, 5) == [Placeholder(Directive(s[5..5], s[5..12]))] + Lex(s, t, 12);
    assert LexFill(s, t, 4, 5, 17) == [Placeholder(Directive(s[5..5], s[5..12]))] + Lex(s, t, 12);
    assert LexFill(s, t, 4, 5, 15) == [Placeholder(Directive(s[5..5], s[5..12]))] + Lex(s, t, 12);
    assert LexFill(s, t, 4, 5, 13) == [Placeholder(Directive(s[5..5], s[5..12]))] + Lex(s, t, 12);
    assert LexFill(s, t, 4, 5, 11) == [Placeholder(Directive(s[5..5], s[5..12]))] + Lex(s, t, 12);
    assert LexFill(s, t, 4, 5, 9) == [Placeholder(Directive(s[5..5], s[5..12]))] + Lex(s, t, 12);
    assert LexFill(s, t, 4, 5, 7) == [Placeholder(Directive(s[5..5], s[5..12]))] + Lex(s, t, 12);
    assert LexFill(s, t, 4, 5, 5) == [Placeholder(Directive(s[5..5], s[5..12]))] + Lex(s, t, 12);
    assert s[5..5] == "";
    assert s[5..12] == "Percent";
    assert LexText(s, t, 0, 4) == [Text(s[0..4])] + Lex(s, t, 4);
    assert LexText(s, t, 0, 2) == [Text(s[0..4])] + Lex(s, t, 4);
    assert s[0..4] == "Foo ";
  }

  lemma LexEscapeAfterKeyFrom12(t: char)
    requires t == '%'
    ensures Lex(EscapeAfterKey, t, 12) == [Escape] + Lex(EscapeAfterKey, t, 14)
    ensures Lex(EscapeAfterKey, t, 14) == [Text(" Bar")] + Lex(EscapeAfterKey, t, 18)
    ensures Lex(EscapeAfterKey, t, 18) == []
  {
    var s := EscapeAfterKey;
    assert LexText(s, t, 14, 18) == [Text(s[14..18])] + Lex(s, t, 18);
    assert LexText(s, t, 14, 16) == [Text(s[14..18])] + Lex(s, t, 18);
    assert s[14..18] == " Bar";
    assert LexBareKey(s, t, 12, 13) == [Escape] + Lex(s, t, 14);
    assert LexWidth(s, t, 12, 13) == [Escape] + Lex(s, t, 14);
    assert LexFill(s, t, 12, 13, 17) == [Escape] + Lex(s, t, 14);
    assert LexFill(s, t, 12, 13, 15) == [Escape] + Lex(s, t, 14);
    assert LexFill(s, t, 12, 13, 13) == [Escape] + Lex(s, t, 14);
  }

  /** "Foo %%%Percent% Bar" */
  const EscapeBeforeKey := "Foo " + "%%" + "%Percent" + "%" + " Bar"

  /** How the cursor splits "Foo %%%Percent% Bar" with token '%'. */
  lemma LexEscapeBeforeKey(t: char)
    requires t == '%'
    ensures Lex(EscapeBeforeKey, t, 0) == [Text("Foo ")] + Lex(EscapeBeforeKey, t, 4)
    ensures Lex(EscapeBeforeKey, t, 4) == [Escape] + Lex(EscapeBeforeKey, t, 6)
  {
    var s := EscapeBeforeKey;
    assert LexBareKey(s, t, 4, 5) == [Escape] + Lex(s, t, 6);
    assert LexWidth(s, t, 4, 5) == [Escape] + Lex(s, t, 6);
    assert LexFill(s, t, 4, 5, 18) == [Escape] + Lex(s, t, 6);
    assert LexFill(s, t, 4, 5, 16) == [Escape] + Lex(s, t, 6);
    assert LexFill(s, t, 4, 5, 14) == [Escape] + Lex(s, t, 6);
    assert LexFill(s, t, 4, 5, 12) == [Escape] + Lex(s, t, 6);
    assert LexFill(s, t, 4, 5, 10) == [Escape] + Lex(s, t, 6);
    assert LexFill(s, t, 4, 5, 8) == [Escape] + Lex(s, t, 6);
    assert LexFill(s, t, 4, 5, 6) == [Escape] + Lex(s, t, 6);
    assert LexToken(s, t, 4) == [Escape] + Lex(s, t, 6);
    assert LexText(s, t, 0, 4) == [Text(s[0..4])] + Lex(s, t, 4);
    assert LexText(s, t, 0, 2) == [Text(s[0..4])] + Lex(s, t, 4);
    assert s[0..4] == "Foo ";
  }

  lemma LexEscapeBeforeKeyFrom6(t: char)
    requires t == '%'
    ensures Lex(EscapeBeforeKey, t, 6) == [Placeholder(Directive("", "Percent"))] + Lex(EscapeBeforeKey, t, 14)
  {
    var s := EscapeBeforeKey;
    assert LexKey(s, t, 6, 7, 14) == [Placeholder(Directive(s[7..7], s[7..14]))] + Lex(s, t, 14);
    assert LexKey(s, t, 6, 7, 12) == [Placeholder(Directive(s[7..7], s[7..14]))] + Lex(s, t, 14);
    assert LexKey(s, t, 6, 7, 10) == [Placeholder(Directive(s[7..7], s[7..14]))] + Lex(s, t, 14);
    assert LexKey(s, t, 6, 7, 8) == [Placeholder(Directive(s[7..7], s[7..14]))] + Lex(s, t, 14);
    assert LexWidth(s, t, 6, 7) == [Placeholder(Directive(s[7..7], s[7..14]))] + Lex(s, t, 14);
    assert LexFill(s, t, 6, 7, 18) == [Placeholder(Directive(s[7..7], s[7..14]))] + Lex(s, t, 14);
    assert LexFill(s, t, 6, 7, 16) == [Placeholder(Directive(s[7..7], s[7..14]))] + Lex(s, t, 14);
    assert LexFill(s, t, 6, 7, 14) == [Placeholder(Directive(s[7..7], s[7..14]))] + Lex(s, t, 14);
    assert LexFill(s, t, 6, 7, 12) == [Placeholder(Directive(s[7..7], s[7..14]))] + Lex(s, t, 14);
    assert LexFill(s, t, 6, 7, 10) == [Placeholder(Directive(s[7..7], s[7..14]))] + Lex(s, t, 14);
    assert LexFill(s, t, 6, 7, 8) == [Placeholder(Directive(s[7..7], s[7..14]))] + Lex(s, t, 14);
    assert LexToken(s, t, 6) == [Placeholder(Directive(s[7..7], s[7..14]))] + Lex(s, t, 14);
    assert s[7..7] == "";
    assert s[7..14] == "Percent";
  }

  lemma LexEscapeBeforeKeyFrom14(t: char)
    requires t == '%'
    ensures Lex(EscapeBeforeKey, t, 14) == [Text([t])] + Lex(EscapeBeforeKey, t, 15)
    ensures Lex(EscapeBeforeKey, t, 15) == [Text(" Bar")] + Lex(EscapeBeforeKey, t, 19)
    ensures Lex(EscapeBeforeKey, t, 19) == []
  {
    var s := EscapeBeforeKey;
    assert LexText(s, t, 15, 19) == [Text(s[15..19])] + Lex(s, t, 19);
    assert LexText(s, t, 15, 17) == [Text(s[15..19])] + Lex(s, t, 19);
    assert s[15..19] == " Bar";
    assert LexBareKey(s, t, 14, 15) == [Text([t])] + Lex(s, t, 15);
    assert LexWidth(s, t, 14, 15) == [Text([t])] + Lex(s, t, 15);
    assert LexFill(s, t, 14, 15, 18) == [Text([t])] + Lex(s, t, 15);
    assert LexFill(s, t, 14, 15, 16) == [Text([t])] + Lex(s, t, 15);
    assert LexToken(s, t, 14) == [Text([t])] + Lex(s, t, 15);
  }

  /** "Foo %%%Percent%% Bar" */
  const EscapesAroundKey := "Foo " + "%%" + "%Percent" + "%%" + " Bar"

  /** How the cursor splits "Foo %%%Percent%% Bar" with token '%'. */
  lemma LexEscapesAroundKey(t: char)
    requires t == '%'
    ensures Lex(EscapesAroundKey, t, 0) == [Text("Foo ")] + Lex(EscapesAroundKey, t, 4)
    ensures Lex(EscapesAroundKey, t, 4) == [Escape] + Lex(EscapesAroundKey, t, 6)
  {
    var s := EscapesAroundKey;
    assert LexBareKey(s, t, 4, 5) == [Escape] + Lex(s, t, 6);
    assert LexWidth(s, t, 4, 5) == [Escape] + Lex(s, t, 6);
    assert LexFill(s, t, 4, 5, 19) == [Escape] + Lex(s, t, 6);
    assert LexFill(s, t, 4, 5, 17) == [Escape] + Lex(s, t, 6);
    assert LexFill(s, t, 4, 5, 15) == [Escape] + Lex(s, t, 6);
    assert LexFill(s, t, 4, 5, 13) == [Escape] + Lex(s, t, 6);
    assert LexFill(s, t, 4, 5, 11) == [Escape] + Lex(s, t, 6);
    assert LexFill(s, t, 4, 5, 9) == [Escape] + Lex(s, t, 6);
    assert LexFill(s, t, 4, 5, 7) == [Escape] + Lex(s, t, 6);
    assert LexFill(s, t, 4, 5, 5) == [Escape] + Lex(s, t, 6);
    assert LexText(s, t, 0, 4) == [Text(s[0..4])] + Lex(s, t, 4);
    assert LexText(s, t, 0, 2) == [Text(s[0..4])] + Lex(s, t, 4);
    assert s[0..4] == "Foo ";
  }

  lemma LexEscapesAroundKeyFrom6(t: char)
    requires t == '%'
    ensures Lex(EscapesAroundKey, t, 6) == [Placeholder(Directive("", "Percent"))] + Lex(EscapesAroundKey, t, 14)
  {
    var s := EscapesAroundKey;
    assert LexKey(s, t, 6, 7, 14) == [Placeholder(Directive(s[7..7], s[7..14]))] + Lex(s, t, 14);
    assert LexKey(s, t, 6, 7, 12) == [Placeholder(Directive(s[7..7], s[7..14]))] + Lex(s, t, 14);
    assert LexKey(s, t, 6, 7, 10) == [Placeholder(Directive(s[7..7], s[7..14]))] + Lex(s, t, 14);
    assert LexKey(s, t, 6, 7, 8) == [Placeholder(Directive(s[7..7], s[7..14]))] + Lex(s, t, 14);
    assert LexWidth(s, t, 6, 7) == [Placeholder(Directive(s[7..7], s[7..14]))] + Lex(s, t, 14);
    assert LexFill(s, t, 6, 7, 19) == [Placeholder(Directive(s[7..7], s[7..14]))] + Lex(s, t, 14);
    assert LexFill(s, t, 6, 7, 17) == [Placeholder(Directive(s[7..7], s[7..14]))] + Lex(s, t, 14);
    assert LexFill(s, t, 6, 7, 15) == [Placeholder(Directive(s[7..7], s[7..14]))] + Lex(s, t, 14);
    assert LexFill(s, t, 6, 7, 13) == [Placeholder(Directive(s[7..7], s[7..14]))] + Lex(s, t, 14);
    assert LexFill(s, t, 6, 7, 11) == [Placeholder(Directive(s[7..7], s[7..14]))] + Lex(s, t, 14);
    assert LexFill(s, t, 6, 7, 9) == [Placeholder(Directive(s[7..7], s[7..14]))] + Lex(s, t, 14);
    assert LexFill(s, t, 6, 7, 7) == [Placeholder(Directive(s[7..7], s[7..14]))] + Lex(s, t, 14);
    assert s[7..7] == "";
    assert s[7..14] == "Percent";
  }

  lemma LexEscapesAroundKeyFrom14(t: char)
    requires t == '%'
    ensures Lex(EscapesAroundKey, t, 14) == [Escape] + Lex(EscapesAroundKey, t, 16)
    ensures Lex(EscapesAroundKey, t, 16) == [Text(" Bar")] + Lex(EscapesAroundKey, t, 20)
    ensures Lex(EscapesAroundKey, t, 20) == []
  {
    var s := EscapesAroundKey;
    assert LexText(s, t, 16, 20) == [Text(s[16..20])] + Lex(s, t, 20);
    assert LexText(s, t, 16, 18) == [Text(s[16..20])] + Lex(s, t, 20);
    assert s[16..20] == " Bar";
    assert LexBareKey(s, t, 14, 15) == [Escape] + Lex(s, t, 16);
    assert LexWidth(s, t, 14, 15) == [Escape] + Lex(s, t, 16);
    assert LexFill(s, t, 14, 15, 19) == [Escape] + Lex(s, t, 16);
    assert LexFill(s, t, 14, 15, 17) == [Escape] + Lex(s, t, 16);
    assert LexFill(s, t, 14, 15, 15) == [Escape] + Lex(s, t, 16);
  }

  /** "Foo%%%Percent%%Bar" */
  const EscapesNoSpaces := "Foo" + "%%" + "%Percent" + "%%" + "Bar"

  /** How the cursor splits "Foo%%%Percent%%Bar" with token '%'. */
  lemma LexEscapesNoSpaces(t: char)
    requires t == '%'
    ensures Lex(EscapesNoSpaces, t, 0) == [Text("Foo")] + Lex(EscapesNoSpaces, t, 3)
    ensures Lex(EscapesNoSpaces, t, 3) == [Escape] + Lex(EscapesNoSpaces, t, 5)
  {
    var s := EscapesNoSpaces;
    assert LexBareKey(s, t, 3, 4) == [Escape] + Lex(s, t, 5);
    assert LexWidth(s, t, 3, 4) == [Escape] + Lex(s, t, 5);
    assert LexFill(s, t, 3, 4, 17) == [Escape] + Lex(s, t, 5);
    assert LexFill(s, t, 3, 4, 15) == [Escape] + Lex(s, t, 5);
    assert LexFill(s, t, 3, 4, 13) == [Escape] + Lex(s, t, 5);
    assert LexFill(s, t, 3, 4, 11) == [Escape] + Lex(s, t, 5);
    assert LexFill(s, t, 3, 4, 9) == [Escape] + Lex(s, t, 5);
    assert LexFill(s, t, 3, 4, 7) == [Escape] + Lex(s, t, 5);
    assert LexFill(s, t, 3, 4, 5) == [Escape] + Lex(s, t, 5);
    assert LexToken(s, t, 3) == [Escape] + Lex(s, t, 5);
    assert LexText(s, t, 0, 3) == [Text(s[0..3])] + Lex(s, t, 3);
    assert LexText(s, t, 0, 1) == [Text(s[0..3])] + Lex(s, t, 3);
    assert s[0..3] == "Foo";
  }

  lemma LexEscapesNoSpacesFrom5(t: char)
    requires t == '%'
    ensures Lex(EscapesNoSpaces, t, 5) == [Placeholder(Directive("", "Percent"))] + Lex(EscapesNoSpaces, t, 13)
  {
    var s := EscapesNoSpaces;
    assert LexKey(s, t, 5, 6, 13) == [Placeholder(Directive(s[6..6], s[6..13]))] + Lex(s, t, 13);
    assert LexKey(s, t, 5, 6, 11) == [Placeholder(Directive(s[6..6], s[6..13]))] + Lex(s, t, 13);
    assert LexKey(s, t, 5, 6, 9) == [Placeholder(Directive(s[6..6], s[6..13]))] + Lex(s, t, 13);
    assert LexKey(s, t, 5, 6, 7) == [Placeholder(Directive(s[6..6], s[6..13]))] + Lex(s, t, 13);
    assert LexWidth(s, t, 5, 6) == [Placeholder(Directive(s[6..6], s[6..13]))] + Lex(s, t, 13);
    assert LexFill(s, t, 5, 6, 17) == [Placeholder(Directive(s[6..6], s[6..13]))] + Lex(s, t, 13);
    assert LexFill(s, t, 5, 6, 15) == [Placeholder(Directive(s[6..6], s[6..13]))] + Lex(s, t, 13);
    assert LexFill(s, t, 5, 6, 13) == [Placeholder(Directive(s[6..6], s[6..13]))] + Lex(s, t, 13);
    assert LexFill(s, t, 5, 6, 11) == [Placeholder(Directive(s[6..6], s[6..13]))] + Lex(s, t, 13);
    assert LexFill(s, t, 5, 6, 9) == [Placeholder(Directive(s[6..6], s[6..13]))] + Lex(s, t, 13);
    assert LexFill(s, t, 5, 6, 7) == [Placeholder(Directive(s[6..6], s[6..13]))] + Lex(s, t, 13);
    assert LexToken(s, t, 5) == [Placeholder(Directive(s[6..6], s[6..13]))] + Lex(s, t, 13);
    assert s[6..6] == "";
    assert s[6..13] == "Percent";
  }

  lemma LexEscapesNoSpacesFrom13(t: char)
    requires t == '%'
    ensures Lex(EscapesNoSpaces, t, 13) == [Escape] + Lex(EscapesNoSpaces, t, 15)
    ensures Lex(EscapesNoSpaces, t, 15) == [Text("Bar")] + Lex(EscapesNoSpaces, t, 18)
    ensures Lex(EscapesNoSpaces, t, 18) == []
  {
    var s := EscapesNoSpaces;
    assert LexText(s, t, 15, 18) == [Text(s[15..18])] + Lex(s, t, 18);
    assert LexText(s, t, 15, 16) == [Text(s[15..18])] + Lex(s, t, 18);
    assert s[15..18] == "Bar";
    assert LexBareKey(s, t, 13, 14) == [Escape] + Lex(s, t, 15);
    assert LexWidth(s, t, 13, 14) == [Escape] + Lex(s, t, 15);
    assert LexFill(s, t, 13, 14, 17) == [Escape] + Lex(s, t, 15);
    assert LexFill(s, t, 13, 14, 15) == [Escape] + Lex(s, t, 15);
    assert LexToken(s, t, 13) == [Escape] + Lex(s, t, 15);
  }

  /** "Foo %%10Percent Bar" */
  const TokenAsFill := "Foo " + "%%10Percent" + " Bar"

  /** How the cursor splits "Foo %%10Percent Bar" with token '%'. */
  lemma LexTokenAsFill(t: char)
    requires t == '%'
    ensures Lex(TokenAsFill, t, 0) == [Text("Foo ")] + Lex(TokenAsFill, t, 4)
    ensures Lex(TokenAsFill, t, 4) == [Placeholder(Directive("%10", "Percent"))] + Lex(TokenAsFill, t, 15)
    ensures Lex(TokenAsFill, t, 15) == [Text(" Bar")] + Lex(TokenAsFill, t, 19)
    ensures Lex(TokenAsFill, t, 19) == []
  {
    var s := TokenAsFill;
    assert LexText(s, t, 15, 19) == [Text(s[15..19])] + Lex(s, t, 19);
    assert LexText(s, t, 15, 17) == [Text(s[15..19])] + Lex(s, t, 19);
    assert s[15..19] == " Bar";
    assert LexKey(s, t, 4, 8, 15) == [Placeholder(Directive(s[5..8], s[8..15]))] + Lex(s, t, 15);
    assert LexKey(s, t, 4, 8, 13) == [Placeholder(Directive(s[5..8], s[8..15]))] + Lex(s, t, 15);
    assert LexKey(s, t, 4, 8, 11) == [Placeholder(Directive(s[5..8], s[8..15]))] + Lex(s, t, 15);
    assert LexKey(s, t, 4, 8, 9) == [Placeholder(Directive(s[5..8], s[8..15]))] + Lex(s, t, 15);
    assert LexWidth(s, t, 4, 8) == [Placeholder(Directive(s[5..8], s[8..15]))] + Lex(s, t, 15);
    assert LexWidth(s, t, 4, 6) == [Placeholder(Directive(s[5..8], s[8..15]))] + Lex(s, t, 15);
    assert LexFill(s, t, 4, 5, 5) == [Placeholder(Directive(s[5..8], s[8..15]))] + Lex(s, t, 15);
    assert s[5..8] == "%10";
    assert s[8..15] == "Percent";
    assert LexText(s, t, 0, 4) == [Text(s[0..4])] + Lex(s, t, 4);
    assert LexText(s, t, 0, 2) == [Text(s[0..4])] + Lex(s, t, 4);
    assert s[0..4] == "Foo ";
  }

  /** "Hello %8Planet!" */
  const HelloEightPlanet := "Hello " + "%8Planet" + "!"

  /** How the cursor splits "Hello %8Planet!" with token '%'. */
  lemma LexHelloEightPlanet(t: char)
    requires t == '%'
    ensures Lex(HelloEightPlanet, t, 0) == [Text("Hello ")] + Lex(HelloEightPlanet, t, 6)
    ensures Lex(HelloEightPlanet, t, 6) == [Placeholder(Directive("8", "Planet"))] + Lex(HelloEightPlanet, t, 14)
    ensures Lex(HelloEightPlanet, t, 14) == [Text("!")] + Lex(HelloEightPlanet, t, 15)
    ensures Lex(HelloEightPlanet, t, 15) == []
  {
    var s := HelloEightPlanet;
    assert LexText(s, t, 14, 15) == [Text(s[14..15])] + Lex(s, t, 15);
    assert s[14..15] == "!";
    assert LexKey(s, t, 6, 8, 14) == [Placeholder(Directive(s[7..8], s[8..14]))] + Lex(s, t, 14);
    assert LexKey(s, t, 6, 8, 12) == [Placeholder(Directive(s[7..8], s[8..14]))] + Lex(s, t, 14);
    assert LexKey(s, t, 6, 8, 10) == [Placeholder(Directive(s[7..8], s[8..14]))] + Lex(s, t, 14);
    assert LexKey(s, t, 6, 8, 8) == [Placeholder(Directive(s[7..8], s[8..14]))] + Lex(s, t, 14);
    assert LexWidth(s, t, 6, 7) == [Placeholder(Directive(s[7..8], s[8..14]))] + Lex(s, t, 14);
    assert LexToken(s, t, 6) == [Placeholder(Directive(s[7..8], s[8..14]))] + Lex(s, t, 14);
    assert s[7..8] == "8";
    assert s[8..14] == "Planet";
    assert LexText(s, t, 0, 6) == [Text(s[0..6])] + Lex(s, t, 6);
    assert LexText(s, t, 0, 4) == [Text(s[0..6])] + Lex(s, t, 6);
    assert LexText(s, t, 0, 2) == [Text(s[0..6])] + Lex(s, t, 6);
    assert s[0..6] == "Hello ";
  }

  /** "Hello %Foo!" */
  const HelloFoo := "Hello " + "%Foo" + "!"

  /** How the cursor splits "Hello %Foo!" with token '%'. */
  lemma LexHelloFoo(t: char)
    requires t == '%'
    ensures Lex(HelloFoo, t, 0) == [Text("Hello ")] + Lex(HelloFoo, t, 6)
    ensures Lex(HelloFoo, t, 6) == [Placeholder(Directive("", "Foo"))] + Lex(HelloFoo, t, 10)
    ensures Lex(HelloFoo, t, 10) == [Text("!")] + Lex(HelloFoo, t, 11)
    ensures Lex(HelloFoo, t, 11) == []
  {
    var s := HelloFoo;
    assert LexText(s, t, 10, 11) == [Text(s[10..11])] + Lex(s, t, 11);
    assert s[10..11] == "!";
    assert LexKey(s, t, 6, 7, 10) == [Placeholder(Directive(s[7..7], s[7..10]))] + Lex(s, t, 10);
    assert LexKey(s, t, 6, 7, 8) == [Placeholder(Directive(s[7..7], s[7..10]))] + Lex(s, t, 10);
    assert LexWidth(s, t, 6, 7) == [Placeholder(Directive(s[7..7], s[7..10]))] + Lex(s, t, 10);
    assert LexFill(s, t, 6, 7, 10) == [Placeholder(Directive(s[7..7], s[7..10]))] + Lex(s, t, 10);
    assert LexFill(s, t, 6, 7, 8) == [Placeholder(Directive(s[7..7], s[7..10]))] + Lex(s, t, 10);
    assert LexToken(s, t, 6) == [Placeholder(Directive(s[7..7], s[7..10]))] + Lex(s, t, 10);
    assert s[7..7] == "";
    assert s[7..10] == "Foo";
    assert LexText(s, t, 0, 6) == [Text(s[0..6])] + Lex(s, t, 6);
    assert LexText(s, t, 0, 4) == [Text(s[0..6])] + Lex(s, t, 6);
    assert LexText(s, t, 0, 2) == [Text(s[0..6])] + Lex(s, t, 6);
    assert s[0..6] == "Hello ";
  }

  /** "%textbye" */
  const TextBye := "%textbye"

  /** How the cursor splits "%textbye" with token '%'. */
  lemma LexTextBye(t: char)
    requires t == '%'
    ensures Lex(TextBye, t, 0) == [Placeholder(Directive("", "textbye"))] + Lex(TextBye, t, 8)
    ensures Lex(TextBye, t, 8) == []
  {
    var s := TextBye;
    assert LexKey(s, t, 0, 1, 8) == [Placeholder(Directive(s[1..1], s[1..8]))] + Lex(s, t, 8);
    assert LexKey(s, t, 0, 1, 6) == [Placeholder(Directive(s[1..1], s[1..8]))] + Lex(s, t, 8);
    assert LexKey(s, t, 0, 1, 4) == [Placeholder(Directive(s[1..1], s[1..8]))] + Lex(s, t, 8);
    assert LexKey(s, t, 0, 1, 2) == [Placeholder(Directive(s[1..1], s[1..8]))] + Lex(s, t, 8);
    assert LexWidth(s, t, 0, 1) == [Placeholder(Directive(s[1..1], s[1..8]))] + Lex(s, t, 8);
    assert LexFill(s, t, 0, 1, 7) == [Placeholder(Directive(s[1..1], s[1..8]))] + Lex(s, t, 8);
    assert LexFill(s, t, 0, 1, 5) == [Placeholder(Directive(s[1..1], s[1..8]))] + Lex(s, t, 8);
    assert LexFill(s, t, 0, 1, 3) == [Placeholder(Directive(s[1..1], s[1..8]))] + Lex(s, t, 8);
    assert LexFill(s, t, 0, 1, 1) == [Placeholder(Directive(s[1..1], s[1..8]))] + Lex(s, t, 8);
    assert s[1..1] == "";
    assert s[1..8] == "textbye";
  }

  /** "Hello $Planet!" */
  const HelloDollarPlanet := "Hello " + "$Planet" + "!"

  /** How the cursor splits "Hello $Planet!" with token '$'. */
  lemma LexHelloDollarPlanet(t: char)
    requires t == '$'
    ensures Lex(HelloDollarPlanet, t, 0) == [Text("Hello ")] + Lex(HelloDollarPlanet, t, 6)
    ensures Lex(HelloDollarPlanet, t, 6) == [Placeholder(Directive("", "Planet"))] + Lex(HelloDollarPlanet, t, 13)
    ensures Lex(HelloDollarPlanet, t, 13) == [Text("!")] + Lex(HelloDollarPlanet, t, 14)
    ensures Lex(HelloDollarPlanet, t, 14) == []
  {
    var s := HelloDollarPlanet;
    assert LexText(s, t, 13, 14) == [Text(s[13..14])] + Lex(s, t, 14);
    assert s[13..14] == "!";
    assert LexKey(s, t, 6, 7, 13) == [Placeholder(Directive(s[7..7], s[7..13]))] + Lex(s, t, 13);
    assert LexKey(s, t, 6, 7, 11) == [Placeholder(Directive(s[7..7], s[7..13]))] + Lex(s, t, 13);
    assert LexKey(s, t, 6, 7, 9) == [Placeholder(Directive(s[7..7], s[7..13]))] + Lex(s, t, 13);
    assert LexKey(s, t, 6, 7, 7) == [Placeholder(Directive(s[7..7], s[7..13]))] + Lex(s, t, 13);
    assert LexFill(s, t, 6, 7, 14) == [Placeholder(Directive(s[7..7], s[7..13]))] + Lex(s, t, 13);
    assert LexFill(s, t, 6, 7, 12) == [Placeholder(Directive(s[7..7], s[7..13]))] + Lex(s, t, 13);
    assert LexFill(s, t, 6, 7, 10) == [Placeholder(Directive(s[7..7], s[7..13]))] + Lex(s, t, 13);
    assert LexFill(s, t, 6, 7, 8) == [Placeholder(Directive(s[7..7], s[7..13]))] + Lex(s, t, 13);
    assert LexToken(s, t, 6) == [Placeholder(Directive(s[7..7], s[7..13]))] + Lex(s, t, 13);
    assert s[7..7] == "";
    assert s[7..13] == "Planet";
    assert LexText(s, t, 0, 6) == [Text(s[0..6])] + Lex(s, t, 6);
    assert LexText(s, t, 0, 4) == [Text(s[0..6])] + Lex(s, t, 6);
    assert LexText(s, t, 0, 2) == [Text(s[0..6])] + Lex(s, t, 6);
    assert s[0..6] == "Hello ";
  }

  /** "%Planet" */
  const Planet := "%Planet"

  /** How the cursor splits "%Planet" with token '%'. */
  lemma LexPlanet(t: char)
    requires t == '%'
    ensures Lex(Planet, t, 0) == [Placeholder(Directive("", "Planet"))] + Lex(Planet, t, 7)
    ensures Lex(Planet, t, 7) == []
  {
    var s := Planet;
    assert LexKey(s, t, 0, 1, 7) == [Placeholder(Directive(s[1..1], s[1..7]))] + Lex(s, t, 7);
    assert LexKey(s, t, 0, 1, 5) == [Placeholder(Directive(s[1..1], s[1..7]))] + Lex(s, t, 7);
    assert LexKey(s, t, 0, 1, 3) == [Placeholder(Directive(s[1..1], s[1..7]))] + Lex(s, t, 7);
    assert LexKey(s, t, 0, 1, 1) == [Placeholder(Directive(s[1..1], s[1..7]))] + Lex(s, t, 7);
    assert LexFill(s, t, 0, 1, 7) == [Placeholder(Directive(s[1..1], s[1..7]))] + Lex(s, t, 7);
    assert LexFill(s, t, 0, 1, 5) == [Placeholder(Directive(s[1..1], s[1..7]))] + Lex(s, t, 7);
    assert LexFill(s, t, 0, 1, 3) == [Placeholder(Directive(s[1..1], s[1..7]))] + Lex(s, t, 7);
    assert LexFill(s, t, 0, 1, 1) == [Placeholder(Directive(s[1..1], s[1..7]))] + Lex(s, t, 7);
    assert s[1..1] == "";
    assert s[1..7] == "Planet";
  }

  /** "%Planet!" */
  const PlanetBang := "%Planet" + "!"

  /** How the cursor splits "%Planet!" with token '%'. */
  lemma LexPlanetBang(t: char)
    requires t == '%'
    ensures Lex(PlanetBang, t, 0) == [Placeholder(Directive("", "Planet"))] + Lex(PlanetBang, t, 7)
    ensures Lex(PlanetBang, t, 7) == [Text("!")] + Lex(PlanetBang, t, 8)
    ensures Lex(PlanetBang, t, 8) == []
  {
    var s := PlanetBang;
    assert LexText(s, t, 7, 8) == [Text(s[7..8])] + Lex(s, t, 8);
    assert s[7..8] == "!";
    assert LexKey(s, t, 0, 1, 7) == [Placeholder(Directive(s[1..1], s[1..7]))] + Lex(s, t, 7);
    assert LexKey(s, t, 0, 1, 5) == [Placeholder(Directive(s[1..1], s[1..7]))] + Lex(s, t, 7);
    assert LexKey(s, t, 0, 1, 3) == [Placeholder(Directive(s[1..1], s[1..7]))] + Lex(s, t, 7);
    assert LexKey(s, t, 0, 1, 1) == [Placeholder(Directive(s[1..1], s[1..7]))] + Lex(s, t, 7);
    assert LexFill(s, t, 0, 1, 8) == [Placeholder(Directive(s[1..1], s[1..7]))] + Lex(s, t, 7);
    assert LexFill(s, t, 0, 1, 6) == [Placeholder(Directive(s[1..1], s[1..7]))] + Lex(s, t, 7);
    assert LexFill(s, t, 0, 1, 4) == [Placeholder(Directive(s[1..1], s[1..7]))] + Lex(s, t, 7);
    assert LexFill(s, t, 0, 1, 2) == [Placeholder(Directive(s[1..1], s[1..7]))] + Lex(s, t, 7);
    assert LexToken(s, t, 0) == [Placeholder(Directive(s[1..1], s[1..7]))] + Lex(s, t, 7);
    assert s[1..1] == "";
    assert s[1..7] == "Planet";
  }

  /** "Foo %Planet!" */
  const FooPlanetBang := "Foo " + "%Planet" + "!"

  /** How the cursor splits "Foo %Planet!" with token '%'. */
  lemma LexFooPlanetBang(t: char)
    requires t == '%'
    ensures Lex(FooPlanetBang, t, 0) == [Text("Foo ")] + Lex(FooPlanetBang, t, 4)
    ensures Lex(FooPlanetBang, t, 4) == [Placeholder(Directive("", "Planet"))] + Lex(FooPlanetBang, t, 11)
    ensures Lex(FooPlanetBang, t, 11) == [Text("!")] + Lex(FooPlanetBang, t, 12)
    ensures Lex(FooPlanetBang, t, 12) == []
  {
    var s := FooPlanetBang;
    assert LexText(s, t, 11, 12) == [Text(s[11..12])] + Lex(s, t, 12);
    assert s[11..12] == "!";
    assert LexKey(s, t, 4, 5, 11) == [Placeholder(Directive(s[5..5], s[5..11]))] + Lex(s, t, 11);
    assert LexKey(s, t, 4, 5, 9) == [Placeholder(Directive(s[5..5], s[5..11]))] + Lex(s, t, 11);
    assert LexKey(s, t, 4, 5, 7) == [Placeholder(Directive(s[5..5], s[5..11]))] + Lex(s, t, 11);
    assert LexKey(s, t, 4, 5, 5) == [Placeholder(Directive(s[5..5], s[5..11]))] + Lex(s, t, 11);
    assert LexFill(s, t, 4, 5, 12) == [Placeholder(Directive(s[5..5], s[5..11]))] + Lex(s, t, 11);
    assert LexFill(s, t, 4, 5, 10) == [Placeholder(Directive(s[5..5], s[5..11]))] + Lex(s, t, 11);
    assert LexFill(s, t, 4, 5, 8) == [Placeholder(Directive(s[5..5], s[5..11]))] + Lex(s, t, 11);
    assert LexFill(s, t, 4, 5, 6) == [Placeholder(Directive(s[5..5], s[5..11]))] + Lex(s, t, 11);
    assert LexToken(s, t, 4) == [Placeholder(Directive(s[5..5], s[5..11]))] + Lex(s, t, 11);
    assert s[5..5] == "";
    assert s[5..11] == "Planet";
    assert LexText(s, t, 0, 4) == [Text(s[0..4])] + Lex(s, t, 4);
    assert LexText(s, t, 0, 2) == [Text(s[0..4])] + Lex(s, t, 4);
    assert s[0..4] == "Foo ";
  }

  /** "Foo %Planet" */
  const FooPlanet := "Foo " + "%Planet"

  /** How the cursor splits "Foo %Planet" with token '%'. */
  lemma LexFooPlanet(t: char)
    requires t == '%'
    ensures Lex(FooPlanet, t, 0) == [Text("Foo ")] + Lex(FooPlanet, t, 4)
    ensures Lex(FooPlanet, t, 4) == [Placeholder(Directive("", "Planet"))] + Lex(FooPlanet, t, 11)
    ensures Lex(FooPlanet, t, 11) == []
  {
    var s := FooPlanet;
    assert LexKey(s, t, 4, 5, 11) == [Placeholder(Directive(s[5..5], s[5..11]))] + Lex(s, t, 11);
    assert LexKey(s, t, 4, 5, 9) == [Placeholder(Directive(s[5..5], s[5..11]))] + Lex(s, t, 11);
    assert LexKey(s, t, 4, 5, 7) == [Placeholder(Directive(s[5..5], s[5..11]))] + Lex(s, t, 11);
    assert LexKey(s, t, 4, 5, 5) == [Placeholder(Directive(s[5..5], s[5..11]))] + Lex(s, t, 11);
    assert LexFill(s, t, 4, 5, 11) == [Placeholder(Directive(s[5..5], s[5..11]))] + Lex(s, t, 11);
    assert LexFill(s, t, 4, 5, 9) == [Placeholder(Directive(s[5..5], s[5..11]))] + Lex(s, t, 11);
    assert LexFill(s, t, 4, 5, 7) == [Placeholder(Directive(s[5..5], s[5..11]))] + Lex(s, t, 11);
    assert LexFill(s, t, 4, 5, 5) == [Placeholder(Directive(s[5..5], s[5..11]))] + Lex(s, t, 11);
    assert s[5..5] == "";
    assert s[5..11] == "Planet";
    assert LexText(s, t, 0, 4) == [Text(s[0..4])] + Lex(s, t, 4);
    assert LexText(s, t, 0, 2) == [Text(s[0..4])] + Lex(s, t, 4);
    assert s[0..4] == "Foo ";
  }

  /** "%Planet! Bar" */
  const PlanetBangBar := "%Planet" + "! Bar"

  /** How the cursor splits "%Planet! Bar" with token '%'. */
  lemma LexPlanetBangBar(t: char)
    requires t == '%'
    ensures Lex(PlanetBangBar, t, 0) == [Placeholder(Directive("", "Planet"))] + Lex(PlanetBangBar, t, 7)
    ensures Lex(PlanetBangBar, t, 7) == [Text("! Bar")] + Lex(PlanetBangBar, t, 12)
    ensures Lex(PlanetBangBar, t, 12) == []
  {
    var s := PlanetBangBar;
    assert LexText(s, t, 7, 12) == [Text(s[7..12])] + Lex(s, t, 12);
    assert LexText(s, t, 7, 10) == [Text(s[7..12])] + Lex(s, t, 12);
    assert LexText(s, t, 7, 8) == [Text(s[7..12])] + Lex(s, t, 12);
    assert s[7..12] == "! Bar";
    assert LexKey(s, t, 0, 1, 7) == [Placeholder(Directive(s[1..1], s[1..7]))] + Lex(s, t, 7);
    assert LexKey(s, t, 0, 1, 5) == [Placeholder(Directive(s[1..1], s[1..7]))] + Lex(s, t, 7);
    assert LexKey(s, t, 0, 1, 3) == [Placeholder(Directive(s[1..1], s[1..7]))] + Lex(s, t, 7);
    assert LexKey(s, t, 0, 1, 1) == [Placeholder(Directive(s[1..1], s[1..7]))] + Lex(s, t, 7);
    assert LexFill(s, t, 0, 1, 12) == [Placeholder(Directive(s[1..1], s[1..7]))] + Lex(s, t, 7);
    assert LexFill(s, t, 0, 1, 10) == [Placeholder(Directive(s[1..1], s[1..7]))] + Lex(s, t, 7);
    assert LexFill(s, t, 0, 1, 8) == [Placeholder(Directive(s[1..1], s[1..7]))] + Lex(s, t, 7);
    assert LexFill(s, t, 0, 1, 6) == [Placeholder(Directive(s[1..1], s[1..7]))] + Lex(s, t, 7);
    assert LexFill(s, t, 0, 1, 4) == [Placeholder(Directive(s[1..1], s[1..7]))] + Lex(s, t, 7);
    assert LexFill(s, t, 0, 1, 2) == [Placeholder(Directive(s[1..1], s[1..7]))] + Lex(s, t, 7);
    assert LexToken(s, t, 0) == [Placeholder(Directive(s[1..1], s[1..7]))] + Lex(s, t, 7);
    assert s[1..1] == "";
    assert s[1..7] == "Planet";
  }

  /** "%Planet Bar" */
  const PlanetBar := "%Planet" + " Bar"

  /** How the cursor splits "%Planet Bar" with token '%'. */
  lemma LexPlanetBar(t: char)
    requires t == '%'
    ensures Lex(PlanetBar, t, 0) == [Placeholder(Directive("", "Planet"))] + Lex(PlanetBar, t, 7)
    ensures Lex(PlanetBar, t, 7) == [Text(" Bar")] + Lex(PlanetBar, t, 11)
    ensures Lex(PlanetBar, t, 11) == []
  {
    var s := PlanetBar;
    assert LexText(s, t, 7, 11) == [Text(s[7..11])] + Lex(s, t, 11);
    assert LexText(s, t, 7, 9) == [Text(s[7..11])] + Lex(s, t, 11);
    assert s[7..11] == " Bar";
    assert LexKey(s, t, 0, 1, 7) == [Placeholder(Directive(s[1..1], s[1..7]))] + Lex(s, t, 7);
    assert LexKey(s, t, 0, 1, 5) == [Placeholder(Directive(s[1..1], s[1..7]))] + Lex(s, t, 7);
    assert LexKey(s, t, 0, 1, 3) == [Placeholder(Directive(s[1..1], s[1..7]))] + Lex(s, t, 7);
    assert LexKey(s, t, 0, 1, 1) == [Placeholder(Directive(s[1..1], s[1..7]))] + Lex(s, t, 7);
    assert LexFill(s, t, 0, 1, 11) == [Placeholder(Directive(s[1..1], s[1..7]))] + Lex(s, t, 7);
    assert LexFill(s, t, 0, 1, 9) == [Placeholder(Directive(s[1..1], s[1..7]))] + Lex(s, t, 7);
    assert LexFill(s, t, 0, 1, 7) == [Placeholder(Directive(s[1..1], s[1..7]))] + Lex(s, t, 7);
    assert LexFill(s, t, 0, 1, 5) == [Placeholder(Directive(s[1..1], s[1..7]))] + Lex(s, t, 7);
    assert LexFill(s, t, 0, 1, 3) == [Placeholder(Directive(s[1..1], s[1..7]))] + Lex(s, t, 7);
    assert LexFill(s, t, 0, 1, 1) == [Placeholder(Directive(s[1..1], s[1..7]))] + Lex(s, t, 7);
    assert s[1..1] == "";
    assert s[1..7] == "Planet";
  }

  /** "Foo %Planet! Bar" */
  const FooPlanetBangBar := "Foo " + "%Planet" + "! Bar"

  /** How the cursor splits "Foo %Planet! Bar" with token '%'. */
  lemma LexFooPlanetBangBar(t: char)
    requires t == '%'
    ensures Lex(FooPlanetBangBar, t, 0) == [Text("Foo ")] + Lex(FooPlanetBangBar, t, 4)
    ensures Lex(FooPlanetBangBar, t, 4) == [Placeholder(Directive("", "Planet"))] + Lex(FooPlanetBangBar, t, 11)
    ensures Lex(FooPlanetBangBar, t, 11) == [Text("! Bar")] + Lex(FooPlanetBangBar, t, 16)
    ensures Lex(FooPlanetBangBar, t, 16) == []
  {
    var s := FooPlanetBangBar;
    assert LexText(s, t, 11, 16) == [Text(s[11..16])] + Lex(s, t, 16);
    assert LexText(s, t, 11, 14) == [Text(s[11..16])] + Lex(s, t, 16);
    assert LexText(s, t, 11, 12) == [Text(s[11..16])] + Lex(s, t, 16);
    assert s[11..16] == "! Bar";
    assert LexKey(s, t, 4, 5, 11) == [Placeholder(Directive(s[5..5], s[5..11]))] + Lex(s, t, 11);
    assert LexKey(s, t, 4, 5, 9) == [Placeholder(Directive(s[5..5], s[5..11]))] + Lex(s, t, 11);
    assert LexKey(s, t, 4, 5, 7) == [Placeholder(Directive(s[5..5], s[5..11]))] + Lex(s, t, 11);
    assert LexKey(s, t, 4, 5, 5) == [Placeholder(Directive(s[5..5], s[5..11]))] + Lex(s, t, 11);
    assert LexFill(s, t, 4, 5, 16) == [Placeholder(Directive(s[5..5], s[5..11]))] + Lex(s, t, 11);
    assert LexFill(s, t, 4, 5, 14) == [Placeholder(Directive(s[5..5], s[5..11]))] + Lex(s, t, 11);
    assert LexFill(s, t, 4, 5, 12) == [Placeholder(Directive(s[5..5], s[5..11]))] + Lex(s, t, 11);
    assert LexFill(s, t, 4, 5, 10) == [Placeholder(Directive(s[5..5], s[5..11]))] + Lex(s, t, 11);
    assert LexFill(s, t, 4, 5, 8) == [Placeholder(Directive(s[5..5], s[5..11]))] + Lex(s, t, 11);
    assert LexFill(s, t, 4, 5, 6) == [Placeholder(Directive(s[5..5], s[5..11]))] + Lex(s, t, 11);
    assert LexToken(s, t, 4) == [Placeholder(Directive(s[5..5], s[5..11]))] + Lex(s, t, 11);
    assert s[5..5] == "";
    assert s[5..11] == "Planet";
    assert LexText(s, t, 0, 4) == [Text(s[0..4])] + Lex(s, t, 4);
    assert LexText(s, t, 0, 2) == [Text(s[0..4])] + Lex(s, t, 4);
    assert s[0..4] == "Foo ";
  }

  /** "Foo %Planet Bar" */
  const FooPlanetBar := "Foo " + "%Planet" + " Bar"

  /** How the cursor splits "Foo %Planet Bar" with token '%'. */
  lemma LexFooPlanetBar(t: char)
    requires t == '%'
    ensures Lex(FooPlanetBar, t, 0) == [Text("Foo ")] + Lex(FooPlanetBar, t, 4)
    ensures Lex(FooPlanetBar, t, 4) == [Placeholder(Directive("", "Planet"))] + Lex(FooPlanetBar, t, 11)
    ensures Lex(FooPlanetBar, t, 11) == [Text(" Bar")] + Lex(FooPlanetBar, t, 15)
    ensures Lex(FooPlanetBar, t, 15) == []
  {
    var s := FooPlanetBar;
    assert LexText(s, t, 11, 15) == [Text(s[11..15])] + Lex(s, t, 15);
    assert LexText(s, t, 11, 13) == [Text(s[11..15])] + Lex(s, t, 15);
    assert s[11..15] == " Bar";
    assert LexKey(s, t, 4, 5, 11) == [Placeholder(Directive(s[5..5], s[5..11]))] + Lex(s, t, 11);
    assert LexKey(s, t, 4, 5, 9) == [Placeholder(Directive(s[5..5], s[5..11]))] + Lex(s, t, 11);
    assert LexKey(s, t, 4, 5, 7) == [Placeholder(Directive(s[5..5], s[5..11]))] + Lex(s, t, 11);
    assert LexKey(s, t, 4, 5, 5) == [Placeholder(Directive(s[5..5], s[5..11]))] + Lex(s, t, 11);
    assert LexFill(s, t, 4, 5, 15) == [Placeholder(Directive(s[5..5], s[5..11]))] + Lex(s, t, 11);
    assert LexFill(s, t, 4, 5, 13) == [Placeholder(Directive(s[5..5], s[5..11]))] + Lex(s, t, 11);
    assert LexFill(s, t, 4, 5, 11) == [Placeholder(Directive(s[5..5], s[5..11]))] + Lex(s, t, 11);
    assert LexFill(s, t, 4, 5, 9) == [Placeholder(Directive(s[5..5], s[5..11]))] + Lex(s, t, 11);
    assert LexFill(s, t, 4, 5, 7) == [Placeholder(Directive(s[5..5], s[5..11]))] + Lex(s, t, 11);
    assert LexFill(s, t, 4, 5, 5) == [Placeholder(Directive(s[5..5], s[5..11]))] + Lex(s, t, 11);
    assert s[5..5] == "";
    assert s[5..11] == "Planet";
    assert LexText(s, t, 0, 4) == [Text(s[0..4])] + Lex(s, t, 4);
    assert LexText(s, t, 0, 2) == [Text(s[0..4])] + Lex(s, t, 4);
    assert s[0..4] == "Foo ";
  }

  /** "Foo %10Planet Bar" */
  const FooWidePlanetBar := "Foo " + "%10Planet" + " Bar"

  /** How the cursor splits "Foo %10Planet Bar" with token '%'. */
  lemma LexFooWidePlanetBar(t: char)
    requires t == '%'
    ensures Lex(FooWidePlanetBar, t, 0) == [Text("Foo ")] + Lex(FooWidePlanetBar, t, 4)
    ensures Lex(FooWidePlanetBar, t, 4) == [Placeholder(Directive("10", "Planet"))] + Lex(FooWidePlanetBar, t, 13)
    ensures Lex(FooWidePlanetBar, t, 13) == [Text(" Bar")] + Lex(FooWidePlanetBar, t, 17)
    ensures Lex(FooWidePlanetBar, t, 17) == []
  {
    var s := FooWidePlanetBar;
    assert LexText(s, t, 13, 17) == [Text(s[13..17])] + Lex(s, t, 17);
    assert LexText(s, t, 13, 15) == [Text(s[13..17])] + Lex(s, t, 17);
    assert s[13..17] == " Bar";
    assert LexKey(s, t, 4, 7, 13) == [Placeholder(Directive(s[5..7], s[7..13]))] + Lex(s, t, 13);
    assert LexKey(s, t, 4, 7, 11) == [Placeholder(Directive(s[5..7], s[7..13]))] + Lex(s, t, 13);
    assert LexKey(s, t, 4, 7, 9) == [Placeholder(Directive(s[5..7], s[7..13]))] + Lex(s, t, 13);
    assert LexKey(s, t, 4, 7, 7) == [Placeholder(Directive(s[5..7], s[7..13]))] + Lex(s, t, 13);
    assert LexWidth(s, t, 4, 6) == [Placeholder(Directive(s[5..7], s[7..13]))] + Lex(s, t, 13);
    assert LexFill(s, t, 4, 5, 5) == [Placeholder(Directive(s[5..7], s[7..13]))] + Lex(s, t, 13);
    assert s[5..7] == "10";
    assert s[7..13] == "Planet";
    assert LexText(s, t, 0, 4) == [Text(s[0..4])] + Lex(s, t, 4);
    assert LexText(s, t, 0, 2) == [Text(s[0..4])] + Lex(s, t, 4);
    assert s[0..4] == "Foo ";
  }

  /** "%Key1 %Key2 %Key3 %Key4" */
  const FourKeys := "%Key1" + " " + "%Key2" + " " + "%Key3" + " " + "%Key4"

  /** How the cursor splits "%Key1 %Key2 %Key3 %Key4" with token '%'. */
  lemma LexFourKeys(t: char)
    requires t == '%'
    ensures Lex(FourKeys, t, 0) == [Placeholder(Directive("", "Key1"))] + Lex(FourKeys, t, 5)
    ensures Lex(FourKeys, t, 5) == [Text(" ")] + Lex(FourKeys, t, 6)
    ensures Lex(FourKeys, t, 6) == [Placeholder(Directive("", "Key2"))] + Lex(FourKeys, t, 11)
    ensures Lex(FourKeys, t, 11) == [Text(" ")] + Lex(FourKeys, t, 12)
  {
    var s := FourKeys;
    assert LexText(s, t, 11, 12) == [Text(s[11..12])] + Lex(s, t, 12);
    assert s[11..12] == " ";
    assert LexBareKey(s, t, 6, 11) == [Placeholder(Directive("", s[7..11]))] + Lex(s, t, 11);
    assert LexBareKey(s, t, 6, 9) == [Placeholder(Directive("", s[7..11]))] + Lex(s, t, 11);
    assert LexBareKey(s, t, 6, 7) == [Placeholder(Directive("", s[7..11]))] + Lex(s, t, 11);
    assert LexWidth(s, t, 6, 11) == [Placeholder(Directive("", s[7..11]))] + Lex(s, t, 11);
    assert LexFill(s, t, 6, 7, 10) == [Placeholder(Directive("", s[7..11]))] + Lex(s, t, 11);
    assert LexFill(s, t, 6, 7, 8) == [Placeholder(Directive("", s[7..11]))] + Lex(s, t, 11);
    assert LexToken(s, t, 6) == [Placeholder(Directive("", s[7..11]))] + Lex(s, t, 11);
    assert s[7..11] == "Key2";
    assert LexText(s, t, 5, 6) == [Text(s[5..6])] + Lex(s, t, 6);
    assert s[5..6] == " ";
    assert LexBareKey(s, t, 0, 5) == [Placeholder(Directive("", s[1..5]))] + Lex(s, t, 5);
    assert LexBareKey(s, t, 0, 3) == [Placeholder(Directive("", s[1..5]))] + Lex(s, t, 5);
    assert LexBareKey(s, t, 0, 1) == [Placeholder(Directive("", s[1..5]))] + Lex(s, t, 5);
    assert LexWidth(s, t, 0, 5) == [Placeholder(Directive("", s[1..5]))] + Lex(s, t, 5);
    assert LexFill(s, t, 0, 1, 4) == [Placeholder(Directive("", s[1..5]))] + Lex(s, t, 5);
    assert LexFill(s, t, 0, 1, 2) == [Placeholder(Directive("", s[1..5]))] + Lex(s, t, 5);
    assert LexToken(s, t, 0) == [Placeholder(Directive("", s[1..5]))] + Lex(s, t, 5);
    assert s[1..5] == "Key1";
  }

  lemma LexFourKeysFrom12(t: char)
    requires t == '%'
    ensures Lex(FourKeys, t, 12) == [Placeholder(Directive("", "Key3"))] + Lex(FourKeys, t, 17)
    ensures Lex(FourKeys, t, 17) == [Text(" ")] + Lex(FourKeys, t, 18)
    ensures Lex(FourKeys, t, 18) == [Placeholder(Directive("", "Key4"))] + Lex(FourKeys, t, 23)
    ensures Lex(FourKeys, t, 23) == []
  {
    var s := FourKeys;
    assert LexBareKey(s, t, 18, 23) == [Placeholder(Directive("", s[19..23]))] + Lex(s, t, 23);
    assert LexBareKey(s, t, 18, 21) == [Placeholder(Directive("", s[19..23]))] + Lex(s, t, 23);
    assert LexBareKey(s, t, 18, 19) == [Placeholder(Directive("", s[19..23]))] + Lex(s, t, 23);
    assert LexWidth(s, t, 18, 23) == [Placeholder(Directive("", s[19..23]))] + Lex(s, t, 23);
    assert LexFill(s, t, 18, 19, 22) == [Placeholder(Directive("", s[19..23]))] + Lex(s, t, 23);
    assert LexFill(s, t, 18, 19, 20) == [Placeholder(Directive("", s[19..23]))] + Lex(s, t, 23);
    assert LexToken(s, t, 18) == [Placeholder(Directive("", s[19..23]))] + Lex(s, t, 23);
    assert s[19..23] == "Key4";
    assert LexText(s, t, 17, 18) == [Text(s[17..18])] + Lex(s, t, 18);
    assert s[17..18] == " ";
    assert LexBareKey(s, t, 12, 17) == [Placeholder(Directive("", s[13..17]))] + Lex(s, t, 17);
    assert LexBareKey(s, t, 12, 15) == [Placeholder(Directive("", s[13..17]))] + Lex(s, t, 17);
    assert LexBareKey(s, t, 12, 13) == [Placeholder(Directive("", s[13..17]))] + Lex(s, t, 17);
    assert LexWidth(s, t, 12, 17) == [Placeholder(Directive("", s[13..17]))] + Lex(s, t, 17);
    assert LexFill(s, t, 12, 13, 16) == [Placeholder(Directive("", s[13..17]))] + Lex(s, t, 17);
    assert LexFill(s, t, 12, 13, 14) == [Placeholder(Directive("", s[13..17]))] + Lex(s, t, 17);
    assert LexToken(s, t, 12) == [Placeholder(Directive("", s[13..17]))] + Lex(s, t, 17);
    assert s[13..17] == "Key3";
  }

  /** "%Key1" */
  const KeyOne := "%Key1"

  /** How the cursor splits "%Key1" with token '%'. */
  lemma LexKeyOne(t: char)
    requires t == '%'
    ensures Lex(KeyOne, t, 0) == [Placeholder(Directive("", "Key1"))] + Lex(KeyOne, t, 5)
    ensures Lex(KeyOne, t, 5) == []
  {
    var s := KeyOne;
    assert LexBareKey(s, t, 0, 5) == [Placeholder(Directive("", s[1..5]))] + Lex(s, t, 5);
    assert LexBareKey(s, t, 0, 3) == [Placeholder(Directive("", s[1..5]))] + Lex(s, t, 5);
    assert LexBareKey(s, t, 0, 1) == [Placeholder(Directive("", s[1..5]))] + Lex(s, t, 5);
    assert LexWidth(s, t, 0, 5) == [Placeholder(Directive("", s[1..5]))] + Lex(s, t, 5);
    assert LexFill(s, t, 0, 1, 4) == [Placeholder(Directive("", s[1..5]))] + Lex(s, t, 5);
    assert LexFill(s, t, 0, 1, 2) == [Placeholder(Directive("", s[1..5]))] + Lex(s, t, 5);
    assert LexToken(s, t, 0) == [Placeholder(Directive("", s[1..5]))] + Lex(s, t, 5);
    assert s[1..5] == "Key1";
  }

  /** "%Key3" */
  const KeyThree := "%Key3"

  /** How the cursor splits "%Key3" with token '%'. */
  lemma LexKeyThree(t: char)
    requires t == '%'
    ensures Lex(KeyThree, t, 0) == [Placeholder(Directive("", "Key3"))] + Lex(KeyThree, t, 5)
    ensures Lex(KeyThree, t, 5) == []
  {
    var s := KeyThree;
    assert LexBareKey(s, t, 0, 5) == [Placeholder(Directive("", s[1..5]))] + Lex(s, t, 5);
    assert LexBareKey(s, t, 0, 3) == [Placeholder(Directive("", s[1..5]))] + Lex(s, t, 5);
    assert LexBareKey(s, t, 0, 1) == [Placeholder(Directive("", s[1..5]))] + Lex(s, t, 5);
    assert LexWidth(s, t, 0, 5) == [Placeholder(Directive("", s[1..5]))] + Lex(s, t, 5);
    assert LexFill(s, t, 0, 1, 4) == [Placeholder(Directive("", s[1..5]))] + Lex(s, t, 5);
    assert LexFill(s, t, 0, 1, 2) == [Placeholder(Directive("", s[1..5]))] + Lex(s, t, 5);
    assert LexToken(s, t, 0) == [Placeholder(Directive("", s[1..5]))] + Lex(s, t, 5);
    assert s[1..5] == "Key3";
  }

  /** "Hello %10Planet!" */
  const HelloWidthPlanet := "Hello " + "%10Planet" + "!"

  /** How the cursor splits "Hello %10Planet!" with token '%'. */
  lemma LexHelloWidthPlanet(t: char)
    requires t == '%'
    ensures Lex(HelloWidthPlanet, t, 0) == [Text("Hello ")] + Lex(HelloWidthPlanet, t, 6)
    ensures Lex(HelloWidthPlanet, t, 6) == [Placeholder(Directive("10", "Planet"))] + Lex(HelloWidthPlanet, t, 15)
    ensures Lex(HelloWidthPlanet, t, 15) == [Text("!")] + Lex(HelloWidthPlanet, t, 16)
    ensures Lex(HelloWidthPlanet, t, 16) == []
  {
    var s := HelloWidthPlanet;
    assert LexText(s, t, 15, 16) == [Text(s[15..16])] + Lex(s, t, 16);
    assert s[15..16] == "!";
    assert LexKey(s, t, 6, 9, 15) == [Placeholder(Directive(s[7..9], s[9..15]))] + Lex(s, t, 15);
    assert LexKey(s, t, 6, 9, 13) == [Placeholder(Directive(s[7..9], s[9..15]))] + Lex(s, t, 15);
    assert LexKey(s, t, 6, 9, 11) == [Placeholder(Directive(s[7..9], s[9..15]))] + Lex(s, t, 15);
    assert LexKey(s, t, 6, 9, 9) == [Placeholder(Directive(s[7..9], s[9..15]))] + Lex(s, t, 15);
    assert LexWidth(s, t, 6, 8) == [Placeholder(Directive(s[7..9], s[9..15]))] + Lex(s, t, 15);
    assert LexFill(s, t, 6, 7, 7) == [Placeholder(Directive(s[7..9], s[9..15]))] + Lex(s, t, 15);
    assert s[7..9] == "10";
    assert s[9..15] == "Planet";
    assert LexText(s, t, 0, 6) == [Text(s[0..6])] + Lex(s, t, 6);
    assert LexText(s, t, 0, 4) == [Text(s[0..6])] + Lex(s, t, 6);
    assert LexText(s, t, 0, 2) == [Text(s[0..6])] + Lex(s, t, 6);
    assert s[0..6] == "Hello ";
  }

  /** "Hello %+10Planet!" */
  const HelloPlusPlanet := "Hello " + "%+10Planet" + "!"

  /** How the cursor splits "Hello %+10Planet!" with token '%'. */
  lemma LexHelloPlusPlanet(t: char)
    requires t == '%'
    ensures Lex(HelloPlusPlanet, t, 0) == [Text("Hello ")] + Lex(HelloPlusPlanet, t, 6)
    ensures Lex(HelloPlusPlanet, t, 6) == [Placeholder(Directive("+10", "Planet"))] + Lex(HelloPlusPlanet, t, 16)
    ensures Lex(HelloPlusPlanet, t, 16) == [Text("!")] + Lex(HelloPlusPlanet, t, 17)
    ensures Lex(HelloPlusPlanet, t, 17) == []
  {
    var s := HelloPlusPlanet;
    assert LexText(s, t, 16, 17) == [Text(s[16..17])] + Lex(s, t, 17);
    assert s[16..17] == "!";
    assert LexKey(s, t, 6, 10, 16) == [Placeholder(Directive(s[7..10], s[10..16]))] + Lex(s, t, 16);
    assert LexKey(s, t, 6, 10, 14) == [Placeholder(Directive(s[7..10], s[10..16]))] + Lex(s, t, 16);
    assert LexKey(s, t, 6, 10, 12) == [Placeholder(Directive(s[7..10], s[10..16]))] + Lex(s, t, 16);
    assert LexKey(s, t, 6, 10, 10) == [Placeholder(Directive(s[7..10], s[10..16]))] + Lex(s, t, 16);
    assert LexWidth(s, t, 6, 9) == [Placeholder(Directive(s[7..10], s[10..16]))] + Lex(s, t, 16);
    assert LexFill(s, t, 6, 8, 8) == [Placeholder(Directive(s[7..10], s[10..16]))] + Lex(s, t, 16);
    assert s[7..10] == "+10";
    assert s[10..16] == "Planet";
    assert LexText(s, t, 0, 6) == [Text(s[0..6])] + Lex(s, t, 6);
    assert LexText(s, t, 0, 4) == [Text(s[0..6])] + Lex(s, t, 6);
    assert LexText(s, t, 0, 2) == [Text(s[0..6])] + Lex(s, t, 6);
    assert s[0..6] == "Hello ";
  }

  /** "Hello %-10Planet!" */
  const HelloMinusPlanet := "Hello " + "%-10Planet" + "!"

  /** How the cursor splits "Hello %-10Planet!" with token '%'. */
  lemma LexHelloMinusPlanet(t: char)
    requires t == '%'
    ensures Lex(HelloMinusPlanet, t, 0) == [Text("Hello ")] + Lex(HelloMinusPlanet, t, 6)
    ensures Lex(HelloMinusPlanet, t, 6) == [Placeholder(Directive("-10", "Planet"))] + Lex(HelloMinusPlanet, t, 16)
    ensures Lex(HelloMinusPlanet, t, 16) == [Text("!")] + Lex(HelloMinusPlanet, t, 17)
    ensures Lex(HelloMinusPlanet, t, 17) == []
  {
    var s := HelloMinusPlanet;
    assert LexText(s, t, 16, 17) == [Text(s[16..17])] + Lex(s, t, 17);
    assert s[16..17] == "!";
    assert LexKey(s, t, 6, 10, 16) == [Placeholder(Directive(s[7..10], s[10..16]))] + Lex(s, t, 16);
    assert LexKey(s, t, 6, 10, 14) == [Placeholder(Directive(s[7..10], s[10..16]))] + Lex(s, t, 16);
    assert LexKey(s, t, 6, 10, 12) == [Placeholder(Directive(s[7..10], s[10..16]))] + Lex(s, t, 16);
    assert LexKey(s, t, 6, 10, 10) == [Placeholder(Directive(s[7..10], s[10..16]))] + Lex(s, t, 16);
    assert LexWidth(s, t, 6, 9) == [Placeholder(Directive(s[7..10], s[10..16]))] + Lex(s, t, 16);
    assert LexFill(s, t, 6, 8, 8) == [Placeholder(Directive(s[7..10], s[10..16]))] + Lex(s, t, 16);
    assert s[7..10] == "-10";
    assert s[10..16] == "Planet";
    assert LexText(s, t, 0, 6) == [Text(s[0..6])] + Lex(s, t, 6);
    assert LexText(s, t, 0, 4) == [Text(s[0..6])] + Lex(s, t, 6);
    assert LexText(s, t, 0, 2) == [Text(s[0..6])] + Lex(s, t, 6);
    assert s[0..6] == "Hello ";
  }

  /** "Hello %|10Planet!" */
  const HelloCenterPlanet := "Hello " + "%|10Planet" + "!"

  /** How the cursor splits "Hello %|10Planet!" with token '%'. */
  lemma LexHelloCenterPlanet(t: char)
    requires t == '%'
    ensures Lex(HelloCenterPlanet, t, 0) == [Text("Hello ")] + Lex(HelloCenterPlanet, t, 6)
    ensures Lex(HelloCenterPlanet, t, 6) == [Placeholder(Directive("|10", "Planet"))] + Lex(HelloCenterPlanet, t, 16)
    ensures Lex(HelloCenterPlanet, t, 16) == [Text("!")] + Lex(HelloCenterPlanet, t, 17)
    ensures Lex(HelloCenterPlanet, t, 17) == []
  {
    var s := HelloCenterPlanet;
    assert LexText(s, t, 16, 17) == [Text(s[16..17])] + Lex(s, t, 17);
    assert s[16..17] == "!";
    assert LexKey(s, t, 6, 10, 16) == [Placeholder(Directive(s[7..10], s[10..16]))] + Lex(s, t, 16);
    assert LexKey(s, t, 6, 10, 14) == [Placeholder(Directive(s[7..10], s[10..16]))] + Lex(s, t, 16);
    assert LexKey(s, t, 6, 10, 12) == [Placeholder(Directive(s[7..10], s[10..16]))] + Lex(s, t, 16);
    assert LexKey(s, t, 6, 10, 10) == [Placeholder(Directive(s[7..10], s[10..16]))] + Lex(s, t, 16);
    assert LexWidth(s, t, 6, 9) == [Placeholder(Directive(s[7..10], s[10..16]))] + Lex(s, t, 16);
    assert LexFill(s, t, 6, 8, 8) == [Placeholder(Directive(s[7..10], s[10..16]))] + Lex(s, t, 16);
    assert s[7..10] == "|10";
    assert s[10..16] == "Planet";
    assert LexText(s, t, 0, 6) == [Text(s[0..6])] + Lex(s, t, 6);
    assert LexText(s, t, 0, 4) == [Text(s[0..6])] + Lex(s, t, 6);
    assert LexText(s, t, 0, 2) == [Text(s[0..6])] + Lex(s, t, 6);
    assert s[0..6] == "Hello ";
  }

  /** "Hello %|AB10Planet!" */
  const HelloCenterFillPlanet := "Hello " + "%|AB10Planet" + "!"

  /** How the cursor splits "Hello %|AB10Planet!" with token '%'. */
  lemma LexHelloCenterFillPlanet(t: char)
    requires t == '%'
    ensures Lex(HelloCenterFillPlanet, t, 0) == [Text("Hello ")] + Lex(HelloCenterFillPlanet, t, 6)
    ensures Lex(HelloCenterFillPlanet, t, 6) == [Placeholder(Directive("|AB10", "Planet"))] + Lex(HelloCenterFillPlanet, t, 18)
    ensures Lex(HelloCenterFillPlanet, t, 18) == [Text("!")] + Lex(HelloCenterFillPlanet, t, 19)
    ensures Lex(HelloCenterFillPlanet, t, 19) == []
  {
    var s := HelloCenterFillPlanet;
    assert LexText(s, t, 18, 19) == [Text(s[18..19])] + Lex(s, t, 19);
    assert s[18..19] == "!";
    assert LexKey(s, t, 6, 12, 18) == [Placeholder(Directive(s[7..12], s[12..18]))] + Lex(s, t, 18);
    assert LexKey(s, t, 6, 12, 16) == [Placeholder(Directive(s[7..12], s[12..18]))] + Lex(s, t, 18);
    assert LexKey(s, t, 6, 12, 14) == [Placeholder(Directive(s[7..12], s[12..18]))] + Lex(s, t, 18);
    assert LexKey(s, t, 6, 12, 12) == [Placeholder(Directive(s[7..12], s[12..18]))] + Lex(s, t, 18);
    assert LexWidth(s, t, 6, 11) == [Placeholder(Directive(s[7..12], s[12..18]))] + Lex(s, t, 18);
    assert LexFill(s, t, 6, 8, 10) == [Placeholder(Directive(s[7..12], s[12..18]))] + Lex(s, t, 18);
    assert LexFill(s, t, 6, 8, 8) == [Placeholder(Directive(s[7..12], s[12..18]))] + Lex(s, t, 18);
    assert s[7..12] == "|AB10";
    assert s[12..18] == "Planet";
    assert LexText(s, t, 0, 6) == [Text(s[0..6])] + Lex(s, t, 6);
    assert LexText(s, t, 0, 4) == [Text(s[0..6])] + Lex(s, t, 6);
    assert LexText(s, t, 0, 2) == [Text(s[0..6])] + Lex(s, t, 6);
    assert s[0..6] == "Hello ";
  }

  /** "Hello %.0Planets!" */
  const HelloFirstPlanet := "Hello " + "%.0Planets" + "!"

  /** How the cursor splits "Hello %.0Planets!" with token '%'. */
  lemma LexHelloFirstPlanet(t: char)
    requires t == '%'
    ensures Lex(HelloFirstPlanet, t, 0) == [Text("Hello ")] + Lex(HelloFirstPlanet, t, 6)
    ensures Lex(HelloFirstPlanet, t, 6) == [Placeholder(Directive(".0", "Planets"))] + Lex(HelloFirstPlanet, t, 16)
    ensures Lex(HelloFirstPlanet, t, 16) == [Text("!")] + Lex(HelloFirstPlanet, t, 17)
    ensures Lex(HelloFirstPlanet, t, 17) == []
  {
    var s := HelloFirstPlanet;
    assert LexText(s, t, 16, 17) == [Text(s[16..17])] + Lex(s, t, 17);
    assert s[16..17] == "!";
    assert LexKey(s, t, 6, 9, 16) == [Placeholder(Directive(s[7..9], s[9..16]))] + Lex(s, t, 16);
    assert LexKey(s, t, 6, 9, 14) == [Placeholder(Directive(s[7..9], s[9..16]))] + Lex(s, t, 16);
    assert LexKey(s, t, 6, 9, 12) == [Placeholder(Directive(s[7..9], s[9..16]))] + Lex(s, t, 16);
    assert LexKey(s, t, 6, 9, 10) == [Placeholder(Directive(s[7..9], s[9..16]))] + Lex(s, t, 16);
    assert LexPrecision(s, t, 6, 9) == [Placeholder(Directive(s[7..9], s[9..16]))] + Lex(s, t, 16);
    assert LexWidth(s, t, 6, 7) == [Placeholder(Directive(s[7..9], s[9..16]))] + Lex(s, t, 16);
    assert LexToken(s, t, 6) == [Placeholder(Directive(s[7..9], s[9..16]))] + Lex(s, t, 16);
    assert s[7..9] == ".0";
    assert s[9..16] == "Planets";
    assert LexText(s, t, 0, 6) == [Text(s[0..6])] + Lex(s, t, 6);
    assert LexText(s, t, 0, 4) == [Text(s[0..6])] + Lex(s, t, 6);
    assert LexText(s, t, 0, 2) == [Text(s[0..6])] + Lex(s, t, 6);
    assert s[0..6] == "Hello ";
  }

  /** "Hello %.Planets!" */
  const HelloDotPlanet := "Hello " + "%.Planets" + "!"

  /** How the cursor splits "Hello %.Planets!" with token '%'. */
  lemma LexHelloDotPlanet(t: char)
    requires t == '%'
    ensures Lex(HelloDotPlanet, t, 0) == [Text("Hello ")] + Lex(HelloDotPlanet, t, 6)
    ensures Lex(HelloDotPlanet, t, 6) == [Placeholder(Directive(".", "Planets"))] + Lex(HelloDotPlanet, t, 15)
    ensures Lex(HelloDotPlanet, t, 15) == [Text("!")] + Lex(HelloDotPlanet, t, 16)
    ensures Lex(HelloDotPlanet, t, 16) == []
  {
    var s := HelloDotPlanet;
    assert LexText(s, t, 15, 16) == [Text(s[15..16])] + Lex(s, t, 16);
    assert s[15..16] == "!";
    assert LexKey(s, t, 6, 8, 15) == [Placeholder(Directive(s[7..8], s[8..15]))] + Lex(s, t, 15);
    assert LexKey(s, t, 6, 8, 13) == [Placeholder(Directive(s[7..8], s[8..15]))] + Lex(s, t, 15);
    assert LexKey(s, t, 6, 8, 11) == [Placeholder(Directive(s[7..8], s[8..15]))] + Lex(s, t, 15);
    assert LexKey(s, t, 6, 8, 9) == [Placeholder(Directive(s[7..8], s[8..15]))] + Lex(s, t, 15);
    assert LexPrecision(s, t, 6, 8) == [Placeholder(Directive(s[7..8], s[8..15]))] + Lex(s, t, 15);
    assert LexFill(s, t, 6, 7, 7) == [Placeholder(Directive(s[7..8], s[8..15]))] + Lex(s, t, 15);
    assert s[7..8] == ".";
    assert s[8..15] == "Planets";
    assert LexText(s, t, 0, 6) == [Text(s[0..6])] + Lex(s, t, 6);
    assert LexText(s, t, 0, 4) == [Text(s[0..6])] + Lex(s, t, 6);
    assert LexText(s, t, 0, 2) == [Text(s[0..6])] + Lex(s, t, 6);
    assert s[0..6] == "Hello ";
  }

  /** "Hello %+10.0Planets!" */
  const HelloWideFirstPlanet := "Hello " + "%+10.0Planets" + "!"

  /** How the cursor splits "Hello %+10.0Planets!" with token '%'. */
  lemma LexHelloWideFirstPlanet(t: char)
    requires t == '%'
    ensures Lex(HelloWideFirstPlanet, t, 0) == [Text("Hello ")] + Lex(HelloWideFirstPlanet, t, 6)
    ensures Lex(HelloWideFirstPlanet, t, 6) == [Placeholder(Directive("+10.0", "Planets"))] + Lex(HelloWideFirstPlanet, t, 19)
    ensures Lex(HelloWideFirstPlanet, t, 19) == [Text("!")] + Lex(HelloWideFirstPlanet, t, 20)
    ensures Lex(HelloWideFirstPlanet, t, 20) == []
  {
    var s := HelloWideFirstPlanet;
    assert LexText(s, t, 19, 20) == [Text(s[19..20])] + Lex(s, t, 20);
    assert s[19..20] == "!";
    assert LexKey(s, t, 6, 12, 19) == [Placeholder(Directive(s[7..12], s[12..19]))] + Lex(s, t, 19);
    assert LexKey(s, t, 6, 12, 17) == [Placeholder(Directive(s[7..12], s[12..19]))] + Lex(s, t, 19);
    assert LexKey(s, t, 6, 12, 15) == [Placeholder(Directive(s[7..12], s[12..19]))] + Lex(s, t, 19);
    assert LexKey(s, t, 6, 12, 13) == [Placeholder(Directive(s[7..12], s[12..19]))] + Lex(s, t, 19);
    assert LexPrecision(s, t, 6, 12) == [Placeholder(Directive(s[7..12], s[12..19]))] + Lex(s, t, 19);
    assert LexWidth(s, t, 6, 10) == [Placeholder(Directive(s[7..12], s[12..19]))] + Lex(s, t, 19);
    assert LexWidth(s, t, 6, 8) == [Placeholder(Directive(s[7..12], s[12..19]))] + Lex(s, t, 19);
    assert LexToken(s, t, 6) == [Placeholder(Directive(s[7..12], s[12..19]))] + Lex(s, t, 19);
    assert s[7..12] == "+10.0";
    assert s[12..19] == "Planets";
    assert LexText(s, t, 0, 6) == [Text(s[0..6])] + Lex(s, t, 6);
    assert LexText(s, t, 0, 4) == [Text(s[0..6])] + Lex(s, t, 6);
    assert LexText(s, t, 0, 2) == [Text(s[0..6])] + Lex(s, t, 6);
    assert s[0..6] == "Hello ";
  }

  /** "Hello %.4Planets!" */
  const HelloFifthPlanet := "Hello " + "%.4Planets" + "!"

  /** How the cursor splits "Hello %.4Planets!" with token '%'. */
  lemma LexHelloFifthPlanet(t: char)
    requires t == '%'
    ensures Lex(HelloFifthPlanet, t, 0) == [Text("Hello ")] + Lex(HelloFifthPlanet, t, 6)
    ensures Lex(HelloFifthPlanet, t, 6) == [Placeholder(Directive(".4", "Planets"))] + Lex(HelloFifthPlanet, t, 16)
    ensures Lex(HelloFifthPlanet, t, 16) == [Text("!")] + Lex(HelloFifthPlanet, t, 17)
    ensures Lex(HelloFifthPlanet, t, 17) == []
  {
    var s := HelloFifthPlanet;
    assert LexText(s, t, 16, 17) == [Text(s[16..17])] + Lex(s, t, 17);
    assert s[16..17] == "!";
    assert LexKey(s, t, 6, 9, 16) == [Placeholder(Directive(s[7..9], s[9..16]))] + Lex(s, t, 16);
    assert LexKey(s, t, 6, 9, 14) == [Placeholder(Directive(s[7..9], s[9..16]))] + Lex(s, t, 16);
    assert LexKey(s, t, 6, 9, 12) == [Placeholder(Directive(s[7..9], s[9..16]))] + Lex(s, t, 16);
    assert LexKey(s, t, 6, 9, 10) == [Placeholder(Directive(s[7..9], s[9..16]))] + Lex(s, t, 16);
    assert LexPrecision(s, t, 6, 9) == [Placeholder(Directive(s[7..9], s[9..16]))] + Lex(s, t, 16);
    assert LexWidth(s, t, 6, 7) == [Placeholder(Directive(s[7..9], s[9..16]))] + Lex(s, t, 16);
    assert LexToken(s, t, 6) == [Placeholder(Directive(s[7..9], s[9..16]))] + Lex(s, t, 16);
    assert s[7..9] == ".4";
    assert s[9..16] == "Planets";
    assert LexText(s, t, 0, 6) == [Text(s[0..6])] + Lex(s, t, 6);
    assert LexText(s, t, 0, 4) == [Text(s[0..6])] + Lex(s, t, 6);
    assert LexText(s, t, 0, 2) == [Text(s[0..6])] + Lex(s, t, 6);
    assert s[0..6] == "Hello ";
  }

  /** "%.3f" */
  const FixedThree := "%.3f"

  /** How the cursor splits "%.3f" with token '%'. */
  lemma LexFixedThree(t: char)
    requires t == '%'
    ensures Lex(FixedThree, t, 0) == [Placeholder(Directive(".3", "f"))] + Lex(FixedThree, t, 4)
    ensures Lex(FixedThree, t, 4) == []
  {
    var s := FixedThree;
    assert LexKey(s, t, 0, 3, 4) == [Placeholder(Directive(s[1..3], s[3..4]))] + Lex(s, t, 4);
    assert LexPrecision(s, t, 0, 3) == [Placeholder(Directive(s[1..3], s[3..4]))] + Lex(s, t, 4);
    assert LexWidth(s, t, 0, 1) == [Placeholder(Directive(s[1..3], s[3..4]))] + Lex(s, t, 4);
    assert LexToken(s, t, 0) == [Placeholder(Directive(s[1..3], s[3..4]))] + Lex(s, t, 4);
    assert s[1..3] == ".3";
    assert s[3..4] == "f";
  }

  /** "Hello %--10Planet!" */
  const HelloDashFillLeftPlanet := "Hello " + "%--10Planet" + "!"

  /** How the cursor splits "Hello %--10Planet!" with token '%'. */
  lemma LexHelloDashFillLeftPlanet(t: char)
    requires t == '%'
    ensures Lex(HelloDashFillLeftPlanet, t, 0) == [Text("Hello ")] + Lex(HelloDashFillLeftPlanet, t, 6)
    ensures Lex(HelloDashFillLeftPlanet, t, 6) == [Placeholder(Directive("--10", "Planet"))] + Lex(HelloDashFillLeftPlanet, t, 17)
    ensures Lex(HelloDashFillLeftPlanet, t, 17) == [Text("!")] + Lex(HelloDashFillLeftPlanet, t, 18)
    ensures Lex(HelloDashFillLeftPlanet, t, 18) == []
  {
    var s := HelloDashFillLeftPlanet;
    assert LexText(s, t, 17, 18) == [Text(s[17..18])] + Lex(s, t, 18);
    assert s[17..18] == "!";
    assert LexKey(s, t, 6, 11, 17) == [Placeholder(Directive(s[7..11], s[11..17]))] + Lex(s, t, 17);
    assert LexKey(s, t, 6, 11, 15) == [Placeholder(Directive(s[7..11], s[11..17]))] + Lex(s, t, 17);
    assert LexKey(s, t, 6, 11, 13) == [Placeholder(Directive(s[7..11], s[11..17]))] + Lex(s, t, 17);
    assert LexKey(s, t, 6, 11, 11) == [Placeholder(Directive(s[7..11], s[11..17]))] + Lex(s, t, 17);
    assert LexWidth(s, t, 6, 10) == [Placeholder(Directive(s[7..11], s[11..17]))] + Lex(s, t, 17);
    assert LexFill(s, t, 6, 8, 9) == [Placeholder(Directive(s[7..11], s[11..17]))] + Lex(s, t, 17);
    assert LexToken(s, t, 6) == [Placeholder(Directive(s[7..11], s[11..17]))] + Lex(s, t, 17);
    assert s[7..11] == "--10";
    assert s[11..17] == "Planet";
    assert LexText(s, t, 0, 6) == [Text(s[0..6])] + Lex(s, t, 6);
    assert LexText(s, t, 0, 4) == [Text(s[0..6])] + Lex(s, t, 6);
    assert LexText(s, t, 0, 2) == [Text(s[0..6])] + Lex(s, t, 6);
    assert s[0..6] == "Hello ";
  }

  /** "Hello %+-10Planet!" */
  const HelloDashFillRightPlanet := "Hello " + "%+-10Planet" + "!"

  /** How the cursor splits "Hello %+-10Planet!" with token '%'. */
  lemma LexHelloDashFillRightPlanet(t: char)
    requires t == '%'
    ensures Lex(HelloDashFillRightPlanet, t, 0) == [Text("Hello ")] + Lex(HelloDashFillRightPlanet, t, 6)
    ensures Lex(HelloDashFillRightPlanet, t, 6) == [Placeholder(Directive("+-10", "Planet"))] + Lex(HelloDashFillRightPlanet, t, 17)
    ensures Lex(HelloDashFillRightPlanet, t, 17) == [Text("!")] + Lex(HelloDashFillRightPlanet, t, 18)
    ensures Lex(HelloDashFillRightPlanet, t, 18) == []
  {
    var s := HelloDashFillRightPlanet;
    assert LexText(s, t, 17, 18) == [Text(s[17..18])] + Lex(s, t, 18);
    assert s[17..18] == "!";
    assert LexKey(s, t, 6, 11, 17) == [Placeholder(Directive(s[7..11], s[11..17]))] + Lex(s, t, 17);
    assert LexKey(s, t, 6, 11, 15) == [Placeholder(Directive(s[7..11], s[11..17]))] + Lex(s, t, 17);
    assert LexKey(s, t, 6, 11, 13) == [Placeholder(Directive(s[7..11], s[11..17]))] + Lex(s, t, 17);
    assert LexKey(s, t, 6, 11, 11) == [Placeholder(Directive(s[7..11], s[11..17]))] + Lex(s, t, 17);
    assert LexWidth(s, t, 6, 10) == [Placeholder(Directive(s[7..11], s[11..17]))] + Lex(s, t, 17);
    assert LexFill(s, t, 6, 8, 9) == [Placeholder(Directive(s[7..11], s[11..17]))] + Lex(s, t, 17);
    assert LexToken(s, t, 6) == [Placeholder(Directive(s[7..11], s[11..17]))] + Lex(s, t, 17);
    assert s[7..11] == "+-10";
    assert s[11..17] == "Planet";
    assert LexText(s, t, 0, 6) == [Text(s[0..6])] + Lex(s, t, 6);
    assert LexText(s, t, 0, 4) == [Text(s[0..6])] + Lex(s, t, 6);
    assert LexText(s, t, 0, 2) == [Text(s[0..6])] + Lex(s, t, 6);
    assert s[0..6] == "Hello ";
  }

  /** "Hello %-+10Planet!" */
  const HelloPlusFillLeftPlanet := "Hello " + "%-+10Planet" + "!"

  /** How the cursor splits "Hello %-+10Planet!" with token '%'. */
  lemma LexHelloPlusFillLeftPlanet(t: char)
    requires t == '%'
    ensures Lex(HelloPlusFillLeftPlanet, t, 0) == [Text("Hello ")] + Lex(HelloPlusFillLeftPlanet, t, 6)
    ensures Lex(HelloPlusFillLeftPlanet, t, 6) == [Placeholder(Directive("-+10", "Planet"))] + Lex(HelloPlusFillLeftPlanet, t, 17)
    ensures Lex(HelloPlusFillLeftPlanet, t, 17) == [Text("!")] + Lex(HelloPlusFillLeftPlanet, t, 18)
    ensures Lex(HelloPlusFillLeftPlanet, t, 18) == []
  {
    var s := HelloPlusFillLeftPlanet;
    assert LexText(s, t, 17, 18) == [Text(s[17..18])] + Lex(s, t, 18);
    assert s[17..18] == "!";
    assert LexKey(s, t, 6, 11, 17) == [Placeholder(Directive(s[7..11], s[11..17]))] + Lex(s, t, 17);
    assert LexKey(s, t, 6, 11, 15) == [Placeholder(Directive(s[7..11], s[11..17]))] + Lex(s, t, 17);
    assert LexKey(s, t, 6, 11, 13) == [Placeholder(Directive(s[7..11], s[11..17]))] + Lex(s, t, 17);
    assert LexKey(s, t, 6, 11, 11) == [Placeholder(Directive(s[7..11], s[11..17]))] + Lex(s, t, 17);
    assert LexWidth(s, t, 6, 10) == [Placeholder(Directive(s[7..11], s[11..17]))] + Lex(s, t, 17);
    assert LexFill(s, t, 6, 8, 9) == [Placeholder(Directive(s[7..11], s[11..17]))] + Lex(s, t, 17);
    assert LexToken(s, t, 6) == [Placeholder(Directive(s[7..11], s[11..17]))] + Lex(s, t, 17);
    assert s[7..11] == "-+10";
    assert s[11..17] == "Planet";
    assert LexText(s, t, 0, 6) == [Text(s[0..6])] + Lex(s, t, 6);
    assert LexText(s, t, 0, 4) == [Text(s[0..6])] + Lex(s, t, 6);
    assert LexText(s, t, 0, 2) == [Text(s[0..6])] + Lex(s, t, 6);
    assert s[0..6] == "Hello ";
  }

  /** "Hello %++10Planet!" */
  const HelloPlusFillRightPlanet := "Hello " + "%++10Planet" + "!"

  /** How the cursor splits "Hello %++10Planet!" with token '%'. */
  lemma LexHelloPlusFillRightPlanet(t: char)
    requires t == '%'
    ensures Lex(HelloPlusFillRightPlanet, t, 0) == [Text("Hello ")] + Lex(HelloPlusFillRightPlanet, t, 6)
    ensures Lex(HelloPlusFillRightPlanet, t, 6) == [Placeholder(Directive("++10", "Planet"))] + Lex(HelloPlusFillRightPlanet, t, 17)
    ensures Lex(HelloPlusFillRightPlanet, t, 17) == [Text("!")] + Lex(HelloPlusFillRightPlanet, t, 18)
    ensures Lex(HelloPlusFillRightPlanet, t, 18) == []
  {
    var s := HelloPlusFillRightPlanet;
    assert LexText(s, t, 17, 18) == [Text(s[17..18])] + Lex(s, t, 18);
    assert s[17..18] == "!";
    assert LexKey(s, t, 6, 11, 17) == [Placeholder(Directive(s[7..11], s[11..17]))] + Lex(s, t, 17);
    assert LexKey(s, t, 6, 11, 15) == [Placeholder(Directive(s[7..11], s[11..17]))] + Lex(s, t, 17);
    assert LexKey(s, t, 6, 11, 13) == [Placeholder(Directive(s[7..11], s[11..17]))] + Lex(s, t, 17);
    assert LexKey(s, t, 6, 11, 11) == [Placeholder(Directive(s[7..11], s[11..17]))] + Lex(s, t, 17);
    assert LexWidth(s, t, 6, 10) == [Placeholder(Directive(s[7..11], s[11..17]))] + Lex(s, t, 17);
    assert LexFill(s, t, 6, 8, 9) == [Placeholder(Directive(s[7..11], s[11..17]))] + Lex(s, t, 17);
    assert LexToken(s, t, 6) == [Placeholder(Directive(s[7..11], s[11..17]))] + Lex(s, t, 17);
    assert s[7..11] == "++10";
    assert s[11..17] == "Planet";
    assert LexText(s, t, 0, 6) == [Text(s[0..6])] + Lex(s, t, 6);
    assert LexText(s, t, 0, 4) == [Text(s[0..6])] + Lex(s, t, 6);
    assert LexText(s, t, 0, 2) == [Text(s[0..6])] + Lex(s, t, 6);
    assert s[0..6] == "Hello ";
  }
}
