/** The golden cases of the value kinds and of the token escape. */
module TypeCases {
  import opened Values
  import opened Grammar
  import opened Lexer
  import opened Bindings
  import opened Formatter
  import opened Templates
  import Decimal
  import opened Padding
  import Rendering
  import opened Prefixes


  /** Printer for the escape cases: the default binding Percent = 100 and a
      key-not-found hook that must never be called (it fails). */
  const PercentPrinter := Printer('\0', Some(StringMap(map["Percent" := Int(100)])), Some(CustomKeyNotFound(NeverCalled)), None, false)

  /** A key-not-found hook that always fails. */
  function NeverCalled(prefix: string, key: string): NotFoundAction { Fail }

  /** A string value replaces its directive. */
  lemma HelloWorld()
    ensures Sprintf(PackagePrinter, HelloPlanet, [StringMap(map["Planet" := Str("World")])]) == Ok("Hello World!")
  {
    assert "Hello " + ("World" + ("!" + "")) == "Hello World!";
    var p := PackagePrinter;
    assert AllSources(p, [StringMap(map["Planet" := Str("World")])]) == [StringMap(map["Planet" := Str("World")])];
    assert MakeBindings([StringMap(map["Planet" := Str("World")])]) == Bound([map["Planet" := Str("World")]], []);
    assert Token(p) == '%';
    HelloWorldSegments();
  }

  lemma HelloWorldSegments()
    ensures FormatSegments(PackagePrinter, [map["Planet" := Str("World")]], Lex(HelloPlanet, '%', 0)) == Ok("Hello " + ("World" + ("!" + "")))
  {
    var p := PackagePrinter;
    var t := '%';
    LexHelloPlanet(t);
    var layers := [map["Planet" := Str("World")]];
    assert FormatSegments(p, layers, Lex(HelloPlanet, t, 14)) == Ok("");
    FormatStep(p, layers, Text("!"), Lex(HelloPlanet, t, 14), "!", "");
    assert RenderSegment(p, layers, Placeholder(Directive("", "Planet"))) == Ok("World");
    FormatStep(p, layers, Placeholder(Directive("", "Planet")), Lex(HelloPlanet, t, 13), "World", "!" + "");
    FormatStep(p, layers, Text("Hello "), Lex(HelloPlanet, t, 6), "Hello ", "World" + ("!" + ""));
  }

  /** Keys end with their trailing digits; integers print in base 10. */
  lemma NumbersAdd()
    ensures Sprintf(PackagePrinter, Numbers, [StringMap(map["Number1" := Int(1), "Number2" := Int(2), "Number3" := Int(3)])]) == Ok("1 + 2 = 3")
  {
    assert "1" + (" + " + ("2" + (" = " + ("3" + "")))) == "1 + 2 = 3";
    var p := PackagePrinter;
    assert AllSources(p, [StringMap(map["Number1" := Int(1), "Number2" := Int(2), "Number3" := Int(3)])]) == [StringMap(map["Number1" := Int(1), "Number2" := Int(2), "Number3" := Int(3)])];
    assert MakeBindings([StringMap(map["Number1" := Int(1), "Number2" := Int(2), "Number3" := Int(3)])]) == Bound([map["Number1" := Int(1), "Number2" := Int(2), "Number3" := Int(3)]], []);
    assert Token(p) == '%';
    NumbersAddSegments();
  }

  lemma NumbersAddSegments()
    ensures FormatSegments(PackagePrinter, [map["Number1" := Int(1), "Number2" := Int(2), "Number3" := Int(3)]], Lex(Numbers, '%', 0)) == Ok("1" + (" + " + ("2" + (" = " + ("3" + "")))))
  {
    var p := PackagePrinter;
    var t := '%';
    LexNumbers(t);
    LexNumbersFrom11(t);
    LexNumbersFrom22(t);
    var layers := [map["Number1" := Int(1), "Number2" := Int(2), "Number3" := Int(3)]];
    assert FormatSegments(p, layers, Lex(Numbers, t, 30)) == Ok("");
    assert "Number3"[6] != "Number1"[6];
    assert "Number3"[6] != "Number2"[6];
    assert "Number3" in layers[0];
    assert GetUpTo(layers, 1, "Number3") == Some(Int(3));
    assert Get(layers, "Number3") == Some(Int(3));
    assert RenderSegment(p, layers, Placeholder(Directive("", "Number3"))) == Ok("3");
    FormatStep(p, layers, Placeholder(Directive("", "Number3")), Lex(Numbers, t, 30), "3", "");
    FormatStep(p, layers, Text(" = "), Lex(Numbers, t, 22), " = ", "3" + "");
    assert "Number2"[6] != "Number1"[6];
    assert "Number2"[6] != "Number3"[6];
    assert "Number2" in layers[0];
    assert GetUpTo(layers, 1, "Number2") == Some(Int(2));
    assert Get(layers, "Number2") == Some(Int(2));
    assert RenderSegment(p, layers, Placeholder(Directive("", "Number2"))) == Ok("2");
    FormatStep(p, layers, Placeholder(Directive("", "Number2")), Lex(Numbers, t, 19), "2", " = " + ("3" + ""));
    FormatStep(p, layers, Text(" + "), Lex(Numbers, t, 11), " + ", "2" + (" = " + ("3" + "")));
    assert "Number1"[6] != "Number2"[6];
    assert "Number1"[6] != "Number3"[6];
    assert "Number1" in layers[0];
    assert GetUpTo(layers, 1, "Number1") == Some(Int(1));
    assert Get(layers, "Number1") == Some(Int(1));
    assert RenderSegment(p, layers, Placeholder(Directive("", "Number1"))) == Ok("1");
    FormatStep(p, layers, Placeholder(Directive("", "Number1")), Lex(Numbers, t, 8), "1", " + " + ("2" + (" = " + ("3" + ""))));
  }

  /** A list prints bracketed, its elements separated by ", ". */
  lemma StringList()
    ensures Sprintf(PackagePrinter, Planets, [StringMap(map["Planets" := List([Str("Earth"), Str("Kepler-107"), Str("Starkiller Base")])])]) == Ok("[Earth, Kepler-107, Starkiller Base]")
  {
    assert ("[" + ("Earth" + ", " + ("Kepler-107" + ", " + "Starkiller Base")) + "]") + "" == "[Earth, Kepler-107, Starkiller Base]";
    var p := PackagePrinter;
    StringListBindings();
    assert Token(p) == '%';
    StringListSegments();
  }

  lemma StringListBindings()
    ensures MakeBindings(AllSources(PackagePrinter, [StringMap(map["Planets" := List([Str("Earth"), Str("Kepler-107"), Str("Starkiller Base")])])])) == Bound([map["Planets" := List([Str("Earth"), Str("Kepler-107"), Str("Starkiller Base")])]], [])
  {
    assert AllSources(PackagePrinter, [StringMap(map["Planets" := List([Str("Earth"), Str("Kepler-107"), Str("Starkiller Base")])])]) == [StringMap(map["Planets" := List([Str("Earth"), Str("Kepler-107"), Str("Starkiller Base")])])];
    assert MakeBindings([StringMap(map["Planets" := List([Str("Earth"), Str("Kepler-107"), Str("Starkiller Base")])])]) == Bound([map["Planets" := List([Str("Earth"), Str("Kepler-107"), Str("Starkiller Base")])]], []);
  }

  lemma StringListSegments()
    ensures FormatSegments(PackagePrinter, [map["Planets" := List([Str("Earth"), Str("Kepler-107"), Str("Starkiller Base")])]], Lex(Planets, '%', 0)) == Ok(("[" + ("Earth" + ", " + ("Kepler-107" + ", " + "Starkiller Base")) + "]") + "")
  {
    var p := PackagePrinter;
    var t := '%';
    LexPlanets(t);
    var layers := [map["Planets" := List([Str("Earth"), Str("Kepler-107"), Str("Starkiller Base")])]];
    assert FormatSegments(p, layers, Lex(Planets, t, 8)) == Ok("");
    StringListValue();
    assert RenderSegment(p, layers, Placeholder(Directive("", "Planets"))) == Ok("[" + ("Earth" + ", " + ("Kepler-107" + ", " + "Starkiller Base")) + "]");
    FormatStep(p, layers, Placeholder(Directive("", "Planets")), Lex(Planets, t, 8), "[" + ("Earth" + ", " + ("Kepler-107" + ", " + "Starkiller Base")) + "]", "");
  }

  /** How the value of StringList prints. */
  lemma StringListValue()
    ensures RenderSegment(PackagePrinter, [map["Planets" := List([Str("Earth"), Str("Kepler-107"), Str("Starkiller Base")])]], Placeholder(Directive("", "Planets"))) == Ok("[" + ("Earth" + ", " + ("Kepler-107" + ", " + "Starkiller Base")) + "]")
  {
    assert [Str("Starkiller Base")][1..] == [];
    assert ["Starkiller Base"] + [] == ["Starkiller Base"];
    assert Rendering.RenderAll([Str("Starkiller Base")]) == Ok(["Starkiller Base"]);
    assert [Str("Kepler-107"), Str("Starkiller Base")][1..] == [Str("Starkiller Base")];
    assert ["Kepler-107"] + ["Starkiller Base"] == ["Kepler-107", "Starkiller Base"];
    assert Rendering.RenderAll([Str("Kepler-107"), Str("Starkiller Base")]) == Ok(["Kepler-107", "Starkiller Base"]);
    assert [Str("Earth"), Str("Kepler-107"), Str("Starkiller Base")][1..] == [Str("Kepler-107"), Str("Starkiller Base")];
    assert ["Earth"] + ["Kepler-107", "Starkiller Base"] == ["Earth", "Kepler-107", "Starkiller Base"];
    assert Rendering.RenderAll([Str("Earth"), Str("Kepler-107"), Str("Starkiller Base")]) == Ok(["Earth", "Kepler-107", "Starkiller Base"]);
    assert ["Kepler-107", "Starkiller Base"][1..] == ["Starkiller Base"];
    assert Rendering.Join(["Kepler-107", "Starkiller Base"]) == "Kepler-107" + ", " + "Starkiller Base";
    assert ["Earth", "Kepler-107", "Starkiller Base"][1..] == ["Kepler-107", "Starkiller Base"];
    assert Rendering.Join(["Earth", "Kepler-107", "Starkiller Base"]) == "Earth" + ", " + ("Kepler-107" + ", " + "Starkiller Base");
    assert Rendering.Render(List([Str("Earth"), Str("Kepler-107"), Str("Starkiller Base")]), None) == Ok("[" + ("Earth" + ", " + ("Kepler-107" + ", " + "Starkiller Base")) + "]");
    assert Rendering.DefaultPrint("", List([Str("Earth"), Str("Kepler-107"), Str("Starkiller Base")])) == Ok("[" + ("Earth" + ", " + ("Kepler-107" + ", " + "Starkiller Base")) + "]");
  }

  /** A key never starts with a digit: "%1" stays as it is. */
  lemma DigitsAreNoKey()
    ensures Sprintf(PackagePrinter, DigitKey, [StringMap(map["1" := Str("Hello")])]) == Ok("%1")
  {
    var p := PackagePrinter;
    assert AllSources(p, [StringMap(map["1" := Str("Hello")])]) == [StringMap(map["1" := Str("Hello")])];
    assert MakeBindings([StringMap(map["1" := Str("Hello")])]) == Bound([map["1" := Str("Hello")]], []);
    var t := Token(p);
    LexDigitKey(t);
    var layers := [map["1" := Str("Hello")]];
    assert FormatSegments(p, layers, Lex(DigitKey, t, 2)) == Ok("");
    FormatStep(p, layers, Text("1"), Lex(DigitKey, t, 2), "1", "");
    FormatStep(p, layers, Text("%"), Lex(DigitKey, t, 1), "%", "1" + "");
    assert "%" + ("1" + "") == "%1";
  }

  /** A function with one result prints as that result. */
  lemma FunctionOfInt()
    ensures Sprintf(PackagePrinter, ValueKey, [StringMap(map["value" := Func([Int(3)])])]) == Ok("3")
  {
    var p := PackagePrinter;
    assert AllSources(p, [StringMap(map["value" := Func([Int(3)])])]) == [StringMap(map["value" := Func([Int(3)])])];
    assert MakeBindings([StringMap(map["value" := Func([Int(3)])])]) == Bound([map["value" := Func([Int(3)])]], []);
    var t := Token(p);
    LexValueKey(t);
    var layers := [map["value" := Func([Int(3)])]];
    assert FormatSegments(p, layers, Lex(ValueKey, t, 6)) == Ok("");
    assert RenderSegment(p, layers, Placeholder(Directive("", "value"))) == Ok("3");
    FormatStep(p, layers, Placeholder(Directive("", "value")), Lex(ValueKey, t, 6), "3", "");
    assert "3" + "" == "3";
  }

  /** A function returning a string prints the string. */
  lemma FunctionOfString()
    ensures Sprintf(PackagePrinter, ValueKey, [StringMap(map["value" := Func([Str("Hello World")])])]) == Ok("Hello World")
  {
    var p := PackagePrinter;
    assert AllSources(p, [StringMap(map["value" := Func([Str("Hello World")])])]) == [StringMap(map["value" := Func([Str("Hello World")])])];
    assert MakeBindings([StringMap(map["value" := Func([Str("Hello World")])])]) == Bound([map["value" := Func([Str("Hello World")])]], []);
    var t := Token(p);
    LexValueKey(t);
    var layers := [map["value" := Func([Str("Hello World")])]];
    assert FormatSegments(p, layers, Lex(ValueKey, t, 6)) == Ok("");
    assert RenderSegment(p, layers, Placeholder(Directive("", "value"))) == Ok("Hello World");
    FormatStep(p, layers, Placeholder(Directive("", "value")), Lex(ValueKey, t, 6), "Hello World", "");
    assert "Hello World" + "" == "Hello World";
  }

  /** A function whose one result is a list prints the list. */
  lemma FunctionOfList()
    ensures Sprintf(PackagePrinter, ValueKey, [StringMap(map["value" := Func([List([Str("Hello"), Int(1)])])])]) == Ok("[Hello, 1]")
  {
    var p := PackagePrinter;
    assert AllSources(p, [StringMap(map["value" := Func([List([Str("Hello"), Int(1)])])])]) == [StringMap(map["value" := Func([List([Str("Hello"), Int(1)])])])];
    assert MakeBindings([StringMap(map["value" := Func([List([Str("Hello"), Int(1)])])])]) == Bound([map["value" := Func([List([Str("Hello"), Int(1)])])]], []);
    var t := Token(p);
    LexValueKey(t);
    var layers := [map["value" := Func([List([Str("Hello"), Int(1)])])]];
    assert FormatSegments(p, layers, Lex(ValueKey, t, 6)) == Ok("");
    FunctionOfListValue();
    assert RenderSegment(p, layers, Placeholder(Directive("", "value"))) == Ok("[" + ("Hello" + ", " + "1") + "]");
    FormatStep(p, layers, Placeholder(Directive("", "value")), Lex(ValueKey, t, 6), "[" + ("Hello" + ", " + "1") + "]", "");
    assert ("[" + ("Hello" + ", " + "1") + "]") + "" == "[Hello, 1]";
  }

  /** How the value of FunctionOfList prints. */
  lemma FunctionOfListValue()
    ensures RenderSegment(PackagePrinter, [map["value" := Func([List([Str("Hello"), Int(1)])])]], Placeholder(Directive("", "value"))) == Ok("[" + ("Hello" + ", " + "1") + "]")
  {
    assert [Int(1)][1..] == [];
    assert ["1"] + [] == ["1"];
    assert Rendering.RenderAll([Int(1)]) == Ok(["1"]);
    assert [Str("Hello"), Int(1)][1..] == [Int(1)];
    assert ["Hello"] + ["1"] == ["Hello", "1"];
    assert Rendering.RenderAll([Str("Hello"), Int(1)]) == Ok(["Hello", "1"]);
    assert ["Hello", "1"][1..] == ["1"];
    assert Rendering.Join(["Hello", "1"]) == "Hello" + ", " + "1";
    assert Rendering.Render(List([Str("Hello"), Int(1)]), None) == Ok("[" + ("Hello" + ", " + "1") + "]");
    assert Rendering.DefaultPrint("", Func([List([Str("Hello"), Int(1)])])) == Ok("[" + ("Hello" + ", " + "1") + "]");
  }

  /** A function with several results prints them as a list. */
  lemma FunctionOfTwo()
    ensures Sprintf(PackagePrinter, ValueKey, [StringMap(map["value" := Func([Str("Hello"), Int(1)])])]) == Ok("[Hello, 1]")
  {
    var p := PackagePrinter;
    assert AllSources(p, [StringMap(map["value" := Func([Str("Hello"), Int(1)])])]) == [StringMap(map["value" := Func([Str("Hello"), Int(1)])])];
    assert MakeBindings([StringMap(map["value" := Func([Str("Hello"), Int(1)])])]) == Bound([map["value" := Func([Str("Hello"), Int(1)])]], []);
    var t := Token(p);
    LexValueKey(t);
    var layers := [map["value" := Func([Str("Hello"), Int(1)])]];
    assert FormatSegments(p, layers, Lex(ValueKey, t, 6)) == Ok("");
    FunctionOfTwoValue();
    assert RenderSegment(p, layers, Placeholder(Directive("", "value"))) == Ok("[" + ("Hello" + ", " + "1") + "]");
    FormatStep(p, layers, Placeholder(Directive("", "value")), Lex(ValueKey, t, 6), "[" + ("Hello" + ", " + "1") + "]", "");
    assert ("[" + ("Hello" + ", " + "1") + "]") + "" == "[Hello, 1]";
  }

  /** How the value of FunctionOfTwo prints. */
  lemma FunctionOfTwoValue()
    ensures RenderSegment(PackagePrinter, [map["value" := Func([Str("Hello"), Int(1)])]], Placeholder(Directive("", "value"))) == Ok("[" + ("Hello" + ", " + "1") + "]")
  {
    assert [Int(1)][1..] == [];
    assert ["1"] + [] == ["1"];
    assert Rendering.RenderAll([Int(1)]) == Ok(["1"]);
    assert [Str("Hello"), Int(1)][1..] == [Int(1)];
    assert ["Hello"] + ["1"] == ["Hello", "1"];
    assert Rendering.RenderAll([Str("Hello"), Int(1)]) == Ok(["Hello", "1"]);
    assert ["Hello", "1"][1..] == ["1"];
    assert Rendering.Join(["Hello", "1"]) == "Hello" + ", " + "1";
    assert Rendering.Render(Func([Str("Hello"), Int(1)]), None) == Ok("[" + ("Hello" + ", " + "1") + "]");
    assert Rendering.DefaultPrint("", Func([Str("Hello"), Int(1)])) == Ok("[" + ("Hello" + ", " + "1") + "]");
  }

  /** A precision selects one result of a function with several. */
  lemma FunctionSelect()
    ensures Sprintf(PackagePrinter, FirstValue, [StringMap(map["value" := Func([Str("Hello"), Int(1)])])]) == Ok("Hello")
  {
    var p := PackagePrinter;
    assert AllSources(p, [StringMap(map["value" := Func([Str("Hello"), Int(1)])])]) == [StringMap(map["value" := Func([Str("Hello"), Int(1)])])];
    assert MakeBindings([StringMap(map["value" := Func([Str("Hello"), Int(1)])])]) == Bound([map["value" := Func([Str("Hello"), Int(1)])]], []);
    var t := Token(p);
    LexFirstValue(t);
    var layers := [map["value" := Func([Str("Hello"), Int(1)])]];
    assert FormatSegments(p, layers, Lex(FirstValue, t, 8)) == Ok("");
    FunctionSelectValue();
    assert RenderSegment(p, layers, Placeholder(Directive(".0", "value"))) == Ok("Hello");
    FormatStep(p, layers, Placeholder(Directive(".0", "value")), Lex(FirstValue, t, 8), "Hello", "");
    assert "Hello" + "" == "Hello";
  }

  /** How the value of FunctionSelect prints. */
  lemma FunctionSelectValue()
    ensures RenderSegment(PackagePrinter, [map["value" := Func([Str("Hello"), Int(1)])]], Placeholder(Directive(".0", "value"))) == Ok("Hello")
  {
    PrefixDot0();
    assert Rendering.Render(Func([Str("Hello"), Int(1)]), Some(0)) == Ok("Hello");
    assert Rendering.DefaultPrint(".0", Func([Str("Hello"), Int(1)])) == Ok("Hello");
  }

  /** A function with no result prints nothing. */
  lemma FunctionOfNothing()
    ensures Sprintf(PackagePrinter, ValueKey, [StringMap(map["value" := Func([])])]) == Ok("")
  {
    var p := PackagePrinter;
    assert AllSources(p, [StringMap(map["value" := Func([])])]) == [StringMap(map["value" := Func([])])];
    assert MakeBindings([StringMap(map["value" := Func([])])]) == Bound([map["value" := Func([])]], []);
    var t := Token(p);
    LexValueKey(t);
    var layers := [map["value" := Func([])]];
    assert FormatSegments(p, layers, Lex(ValueKey, t, 6)) == Ok("");
    assert RenderSegment(p, layers, Placeholder(Directive("", "value"))) == Ok("");
    FormatStep(p, layers, Placeholder(Directive("", "value")), Lex(ValueKey, t, 6), "", "");
    assert "" + "" == "";
  }

  /** A signed integer prints in base 10. */
  lemma SignedInt()
    ensures Sprintf(PackagePrinter, ValueKey, [StringMap(map["value" := Int(6)])]) == Ok("6")
  {
    var p := PackagePrinter;
    assert AllSources(p, [StringMap(map["value" := Int(6)])]) == [StringMap(map["value" := Int(6)])];
    assert MakeBindings([StringMap(map["value" := Int(6)])]) == Bound([map["value" := Int(6)]], []);
    var t := Token(p);
    LexValueKey(t);
    var layers := [map["value" := Int(6)]];
    assert FormatSegments(p, layers, Lex(ValueKey, t, 6)) == Ok("");
    assert RenderSegment(p, layers, Placeholder(Directive("", "value"))) == Ok("6");
    FormatStep(p, layers, Placeholder(Directive("", "value")), Lex(ValueKey, t, 6), "6", "");
    assert "6" + "" == "6";
  }

  /** An unsigned integer prints in base 10. */
  lemma UnsignedInt()
    ensures Sprintf(PackagePrinter, ValueKey, [StringMap(map["value" := Uint(6)])]) == Ok("6")
  {
    var p := PackagePrinter;
    assert AllSources(p, [StringMap(map["value" := Uint(6)])]) == [StringMap(map["value" := Uint(6)])];
    assert MakeBindings([StringMap(map["value" := Uint(6)])]) == Bound([map["value" := Uint(6)]], []);
    var t := Token(p);
    LexValueKey(t);
    var layers := [map["value" := Uint(6)]];
    assert FormatSegments(p, layers, Lex(ValueKey, t, 6)) == Ok("");
    assert RenderSegment(p, layers, Placeholder(Directive("", "value"))) == Ok("6");
    FormatStep(p, layers, Placeholder(Directive("", "value")), Lex(ValueKey, t, 6), "6", "");
    assert "6" + "" == "6";
  }

  /** A bool prints as true or false. */
  lemma BoolTrue()
    ensures Sprintf(PackagePrinter, ValueKey, [StringMap(map["value" := Bool(true)])]) == Ok("true")
  {
    var p := PackagePrinter;
    assert AllSources(p, [StringMap(map["value" := Bool(true)])]) == [StringMap(map["value" := Bool(true)])];
    assert MakeBindings([StringMap(map["value" := Bool(true)])]) == Bound([map["value" := Bool(true)]], []);
    var t := Token(p);
    LexValueKey(t);
    var layers := [map["value" := Bool(true)]];
    assert FormatSegments(p, layers, Lex(ValueKey, t, 6)) == Ok("");
    assert RenderSegment(p, layers, Placeholder(Directive("", "value"))) == Ok("true");
    FormatStep(p, layers, Placeholder(Directive("", "value")), Lex(ValueKey, t, 6), "true", "");
    assert "true" + "" == "true";
  }

  /** A bool prints as true or false. */
  lemma BoolFalse()
    ensures Sprintf(PackagePrinter, ValueKey, [StringMap(map["value" := Bool(false)])]) == Ok("false")
  {
    var p := PackagePrinter;
    assert AllSources(p, [StringMap(map["value" := Bool(false)])]) == [StringMap(map["value" := Bool(false)])];
    assert MakeBindings([StringMap(map["value" := Bool(false)])]) == Bound([map["value" := Bool(false)]], []);
    var t := Token(p);
    LexValueKey(t);
    var layers := [map["value" := Bool(false)]];
    assert FormatSegments(p, layers, Lex(ValueKey, t, 6)) == Ok("");
    assert RenderSegment(p, layers, Placeholder(Directive("", "value"))) == Ok("false");
    FormatStep(p, layers, Placeholder(Directive("", "value")), Lex(ValueKey, t, 6), "false", "");
    assert "false" + "" == "false";
  }

  /** A rune prints as its code point. */
  lemma RuneCode()
    ensures Sprintf(PackagePrinter, ValueKey, [StringMap(map["value" := Rune('A')])]) == Ok("65")
  {
    var p := PackagePrinter;
    assert AllSources(p, [StringMap(map["value" := Rune('A')])]) == [StringMap(map["value" := Rune('A')])];
    assert MakeBindings([StringMap(map["value" := Rune('A')])]) == Bound([map["value" := Rune('A')]], []);
    var t := Token(p);
    LexValueKey(t);
    var layers := [map["value" := Rune('A')]];
    assert FormatSegments(p, layers, Lex(ValueKey, t, 6)) == Ok("");
    assert Decimal.NatToString(65) == "65";
    assert RenderSegment(p, layers, Placeholder(Directive("", "value"))) == Ok("65");
    FormatStep(p, layers, Placeholder(Directive("", "value")), Lex(ValueKey, t, 6), "65", "");
    assert "65" + "" == "65";
  }

  /** A pointer prints as its target. */
  lemma PointerTarget()
    ensures Sprintf(PackagePrinter, ValueKey, [StringMap(map["value" := Ptr(Str("Hello"))])]) == Ok("Hello")
  {
    var p := PackagePrinter;
    assert AllSources(p, [StringMap(map["value" := Ptr(Str("Hello"))])]) == [StringMap(map["value" := Ptr(Str("Hello"))])];
    assert MakeBindings([StringMap(map["value" := Ptr(Str("Hello"))])]) == Bound([map["value" := Ptr(Str("Hello"))]], []);
    var t := Token(p);
    LexValueKey(t);
    var layers := [map["value" := Ptr(Str("Hello"))]];
    assert FormatSegments(p, layers, Lex(ValueKey, t, 6)) == Ok("");
    assert RenderSegment(p, layers, Placeholder(Directive("", "value"))) == Ok("Hello");
    FormatStep(p, layers, Placeholder(Directive("", "value")), Lex(ValueKey, t, 6), "Hello", "");
    assert "Hello" + "" == "Hello";
  }

  /** A value with no text form prints nothing when errors are suppressed. */
  lemma UnsupportedKind()
    ensures Sprintf(PackagePrinter, ValueKey, [StringMap(map["value" := Unsupported])]) == Ok("")
  {
    var p := PackagePrinter;
    assert AllSources(p, [StringMap(map["value" := Unsupported])]) == [StringMap(map["value" := Unsupported])];
    assert MakeBindings([StringMap(map["value" := Unsupported])]) == Bound([map["value" := Unsupported]], []);
    var t := Token(p);
    LexValueKey(t);
    var layers := [map["value" := Unsupported]];
    assert FormatSegments(p, layers, Lex(ValueKey, t, 6)) == Ok("");
    assert RenderSegment(p, layers, Placeholder(Directive("", "value"))) == Err(UnsupportedValue);
    SkipStep(p, layers, Placeholder(Directive("", "value")), Lex(ValueKey, t, 6), "");
  }

  /** A nil value prints nothing when errors are suppressed. */
  lemma NilPrintsNothing()
    ensures Sprintf(PackagePrinter, ValueKey, [StringMap(map["value" := Nil])]) == Ok("")
  {
    var p := PackagePrinter;
    assert AllSources(p, [StringMap(map["value" := Nil])]) == [StringMap(map["value" := Nil])];
    assert MakeBindings([StringMap(map["value" := Nil])]) == Bound([map["value" := Nil]], []);
    var t := Token(p);
    LexValueKey(t);
    var layers := [map["value" := Nil]];
    assert FormatSegments(p, layers, Lex(ValueKey, t, 6)) == Ok("");
    assert RenderSegment(p, layers, Placeholder(Directive("", "value"))) == Err(NilValue);
    SkipStep(p, layers, Placeholder(Directive("", "value")), Lex(ValueKey, t, 6), "");
  }

  /** A token that starts nothing is copied. */
  lemma LoneTokenIsText()
    ensures Sprintf(PercentPrinter, LoneToken, []) == Ok("Foo % Bar")
  {
    assert "Foo " + ("%" + (" Bar" + "")) == "Foo % Bar";
    var p := PercentPrinter;
    assert AllSources(p, []) == [StringMap(map["Percent" := Int(100)])];
    assert MakeBindings([StringMap(map["Percent" := Int(100)])]) == Bound([map["Percent" := Int(100)]], []);
    assert Token(p) == '%';
    LoneTokenIsTextSegments();
  }

  lemma LoneTokenIsTextSegments()
    ensures FormatSegments(PercentPrinter, [map["Percent" := Int(100)]], Lex(LoneToken, '%', 0)) == Ok("Foo " + ("%" + (" Bar" + "")))
  {
    var p := PercentPrinter;
    var t := '%';
    LexLoneToken(t);
    var layers := [map["Percent" := Int(100)]];
    assert FormatSegments(p, layers, Lex(LoneToken, t, 9)) == Ok("");
    FormatStep(p, layers, Text(" Bar"), Lex(LoneToken, t, 9), " Bar", "");
    FormatStep(p, layers, Text("%"), Lex(LoneToken, t, 5), "%", " Bar" + "");
    FormatStep(p, layers, Text("Foo "), Lex(LoneToken, t, 4), "Foo ", "%" + (" Bar" + ""));
  }

  /** Two tokens print as one. */
  lemma EscapeIsOneToken()
    ensures Sprintf(PercentPrinter, EscapedToken, []) == Ok("Foo % Bar")
  {
    assert "Foo " + ("%" + (" Bar" + "")) == "Foo % Bar";
    var p := PercentPrinter;
    assert AllSources(p, []) == [StringMap(map["Percent" := Int(100)])];
    assert MakeBindings([StringMap(map["Percent" := Int(100)])]) == Bound([map["Percent" := Int(100)]], []);
    assert Token(p) == '%';
    EscapeIsOneTokenSegments();
  }

  lemma EscapeIsOneTokenSegments()
    ensures FormatSegments(PercentPrinter, [map["Percent" := Int(100)]], Lex(EscapedToken, '%', 0)) == Ok("Foo " + ("%" + (" Bar" + "")))
  {
    var p := PercentPrinter;
    var t := '%';
    LexEscapedToken(t);
    var layers := [map["Percent" := Int(100)]];
    assert FormatSegments(p, layers, Lex(EscapedToken, t, 10)) == Ok("");
    FormatStep(p, layers, Text(" Bar"), Lex(EscapedToken, t, 10), " Bar", "");
    FormatStep(p, layers, Escape, Lex(EscapedToken, t, 6), "%", " Bar" + "");
    FormatStep(p, layers, Text("Foo "), Lex(EscapedToken, t, 4), "Foo ", "%" + (" Bar" + ""));
  }

  /** A token after a key that starts nothing is copied. */
  lemma KeyThenToken()
    ensures Sprintf(PercentPrinter, TokenAfterKey, []) == Ok("Foo 100% Bar")
  {
    assert "Foo " + ("100" + ("%" + (" Bar" + ""))) == "Foo 100% Bar";
    var p := PercentPrinter;
    assert AllSources(p, []) == [StringMap(map["Percent" := Int(100)])];
    assert MakeBindings([StringMap(map["Percent" := Int(100)])]) == Bound([map["Percent" := Int(100)]], []);
    assert Token(p) == '%';
    KeyThenTokenSegments();
  }

  lemma KeyThenTokenSegments()
    ensures FormatSegments(PercentPrinter, [map["Percent" := Int(100)]], Lex(TokenAfterKey, '%', 0)) == Ok("Foo " + ("100" + ("%" + (" Bar" + ""))))
  {
    var p := PercentPrinter;
    var t := '%';
    LexTokenAfterKey(t);
    LexTokenAfterKeyFrom12(t);
    var layers := [map["Percent" := Int(100)]];
    assert FormatSegments(p, layers, Lex(TokenAfterKey, t, 17)) == Ok("");
    FormatStep(p, layers, Text(" Bar"), Lex(TokenAfterKey, t, 17), " Bar", "");
    FormatStep(p, layers, Text("%"), Lex(TokenAfterKey, t, 13), "%", " Bar" + "");
    assert Decimal.NatToString(10) == "10";
    assert Decimal.NatToString(100) == "100";
    assert RenderSegment(p, layers, Placeholder(Directive("", "Percent"))) == Ok("100");
    FormatStep(p, layers, Placeholder(Directive("", "Percent")), Lex(TokenAfterKey, t, 12), "100", "%" + (" Bar" + ""));
    FormatStep(p, layers, Text("Foo "), Lex(TokenAfterKey, t, 4), "Foo ", "100" + ("%" + (" Bar" + "")));
  }

  /** An escape right after a key. */
  lemma KeyThenEscape()
    ensures Sprintf(PercentPrinter, EscapeAfterKey, []) == Ok("Foo 100% Bar")
  {
    assert "Foo " + ("100" + ("%" + (" Bar" + ""))) == "Foo 100% Bar";
    var p := PercentPrinter;
    assert AllSources(p, []) == [StringMap(map["Percent" := Int(100)])];
    assert MakeBindings([StringMap(map["Percent" := Int(100)])]) == Bound([map["Percent" := Int(100)]], []);
    assert Token(p) == '%';
    KeyThenEscapeSegments();
  }

  lemma KeyThenEscapeSegments()
    ensures FormatSegments(PercentPrinter, [map["Percent" := Int(100)]], Lex(EscapeAfterKey, '%', 0)) == Ok("Foo " + ("100" + ("%" + (" Bar" + ""))))
  {
    var p := PercentPrinter;
    var t := '%';
    LexEscapeAfterKey(t);
    LexEscapeAfterKeyFrom12(t);
    var layers := [map["Percent" := Int(100)]];
    assert FormatSegments(p, layers, Lex(EscapeAfterKey, t, 18)) == Ok("");
    FormatStep(p, layers, Text(" Bar"), Lex(EscapeAfterKey, t, 18), " Bar", "");
    FormatStep(p, layers, Escape, Lex(EscapeAfterKey, t, 14), "%", " Bar" + "");
    assert Decimal.NatToString(10) == "10";
    assert Decimal.NatToString(100) == "100";
    assert RenderSegment(p, layers, Placeholder(Directive("", "Percent"))) == Ok("100");
    FormatStep(p, layers, Placeholder(Directive("", "Percent")), Lex(EscapeAfterKey, t, 12), "100", "%" + (" Bar" + ""));
    FormatStep(p, layers, Text("Foo "), Lex(EscapeAfterKey, t, 4), "Foo ", "100" + ("%" + (" Bar" + "")));
  }

  /** An escape right before a key. */
  lemma EscapeThenKey()
    ensures Sprintf(PercentPrinter, EscapeBeforeKey, []) == Ok("Foo %100% Bar")
  {
    assert "Foo " + ("%" + ("100" + ("%" + (" Bar" + "")))) == "Foo %100% Bar";
    var p := PercentPrinter;
    assert AllSources(p, []) == [StringMap(map["Percent" := Int(100)])];
    assert MakeBindings([StringMap(map["Percent" := Int(100)])]) == Bound([map["Percent" := Int(100)]], []);
    assert Token(p) == '%';
    EscapeThenKeySegments();
  }

  lemma EscapeThenKeySegments()
    ensures FormatSegments(PercentPrinter, [map["Percent" := Int(100)]], Lex(EscapeBeforeKey, '%', 0)) == Ok("Foo " + ("%" + ("100" + ("%" + (" Bar" + "")))))
  {
    var p := PercentPrinter;
    var t := '%';
    LexEscapeBeforeKey(t);
    LexEscapeBeforeKeyFrom6(t);
    LexEscapeBeforeKeyFrom14(t);
    var layers := [map["Percent" := Int(100)]];
    assert FormatSegments(p, layers, Lex(EscapeBeforeKey, t, 19)) == Ok("");
    FormatStep(p, layers, Text(" Bar"), Lex(EscapeBeforeKey, t, 19), " Bar", "");
    FormatStep(p, layers, Text("%"), Lex(EscapeBeforeKey, t, 15), "%", " Bar" + "");
    assert Decimal.NatToString(10) == "10";
    assert Decimal.NatToString(100) == "100";
    assert RenderSegment(p, layers, Placeholder(Directive("", "Percent"))) == Ok("100");
    FormatStep(p, layers, Placeholder(Directive("", "Percent")), Lex(EscapeBeforeKey, t, 14), "100", "%" + (" Bar" + ""));
    FormatStep(p, layers, Escape, Lex(EscapeBeforeKey, t, 6), "%", "100" + ("%" + (" Bar" + "")));
    FormatStep(p, layers, Text("Foo "), Lex(EscapeBeforeKey, t, 4), "Foo ", "%" + ("100" + ("%" + (" Bar" + ""))));
  }

  /** Escapes on both sides of a key. */
  lemma EscapesAround()
    ensures Sprintf(PercentPrinter, EscapesAroundKey, []) == Ok("Foo %100% Bar")
  {
    assert "Foo " + ("%" + ("100" + ("%" + (" Bar" + "")))) == "Foo %100% Bar";
    var p := PercentPrinter;
    assert AllSources(p, []) == [StringMap(map["Percent" := Int(100)])];
    assert MakeBindings([StringMap(map["Percent" := Int(100)])]) == Bound([map["Percent" := Int(100)]], []);
    assert Token(p) == '%';
    EscapesAroundSegments();
  }

  lemma EscapesAroundSegments()
    ensures FormatSegments(PercentPrinter, [map["Percent" := Int(100)]], Lex(EscapesAroundKey, '%', 0)) == Ok("Foo " + ("%" + ("100" + ("%" + (" Bar" + "")))))
  {
    var p := PercentPrinter;
    var t := '%';
    LexEscapesAroundKey(t);
    LexEscapesAroundKeyFrom6(t);
    LexEscapesAroundKeyFrom14(t);
    var layers := [map["Percent" := Int(100)]];
    assert FormatSegments(p, layers, Lex(EscapesAroundKey, t, 20)) == Ok("");
    FormatStep(p, layers, Text(" Bar"), Lex(EscapesAroundKey, t, 20), " Bar", "");
    FormatStep(p, layers, Escape, Lex(EscapesAroundKey, t, 16), "%", " Bar" + "");
    assert Decimal.NatToString(10) == "10";
    assert Decimal.NatToString(100) == "100";
    assert RenderSegment(p, layers, Placeholder(Directive("", "Percent"))) == Ok("100");
    FormatStep(p, layers, Placeholder(Directive("", "Percent")), Lex(EscapesAroundKey, t, 14), "100", "%" + (" Bar" + ""));
    FormatStep(p, layers, Escape, Lex(EscapesAroundKey, t, 6), "%", "100" + ("%" + (" Bar" + "")));
    FormatStep(p, layers, Text("Foo "), Lex(EscapesAroundKey, t, 4), "Foo ", "%" + ("100" + ("%" + (" Bar" + ""))));
  }

  /** Text right next to escapes is kept. */
  lemma EscapesWithoutSpaces()
    ensures Sprintf(PercentPrinter, EscapesNoSpaces, []) == Ok("Foo%100%Bar")
  {
    assert "Foo" + ("%" + ("100" + ("%" + ("Bar" + "")))) == "Foo%100%Bar";
    var p := PercentPrinter;
    assert AllSources(p, []) == [StringMap(map["Percent" := Int(100)])];
    assert MakeBindings([StringMap(map["Percent" := Int(100)])]) == Bound([map["Percent" := Int(100)]], []);
    assert Token(p) == '%';
    EscapesWithoutSpacesSegments();
  }

  lemma EscapesWithoutSpacesSegments()
    ensures FormatSegments(PercentPrinter, [map["Percent" := Int(100)]], Lex(EscapesNoSpaces, '%', 0)) == Ok("Foo" + ("%" + ("100" + ("%" + ("Bar" + "")))))
  {
    var p := PercentPrinter;
    var t := '%';
    LexEscapesNoSpaces(t);
    LexEscapesNoSpacesFrom5(t);
    LexEscapesNoSpacesFrom13(t);
    var layers := [map["Percent" := Int(100)]];
    assert FormatSegments(p, layers, Lex(EscapesNoSpaces, t, 18)) == Ok("");
    FormatStep(p, layers, Text("Bar"), Lex(EscapesNoSpaces, t, 18), "Bar", "");
    FormatStep(p, layers, Escape, Lex(EscapesNoSpaces, t, 15), "%", "Bar" + "");
    assert Decimal.NatToString(10) == "10";
    assert Decimal.NatToString(100) == "100";
    assert RenderSegment(p, layers, Placeholder(Directive("", "Percent"))) == Ok("100");
    FormatStep(p, layers, Placeholder(Directive("", "Percent")), Lex(EscapesNoSpaces, t, 13), "100", "%" + ("Bar" + ""));
    FormatStep(p, layers, Escape, Lex(EscapesNoSpaces, t, 5), "%", "100" + ("%" + ("Bar" + "")));
    FormatStep(p, layers, Text("Foo"), Lex(EscapesNoSpaces, t, 3), "Foo", "%" + ("100" + ("%" + ("Bar" + ""))));
  }

  /** A token right after a token can be a fill sequence: "%%10Percent" pads 100 to width 10 with "%". */
  lemma TokenFill()
    ensures Sprintf(PercentPrinter, TokenAsFill, []) == Ok("Foo %%%%%%%100 Bar")
  {
    assert "Foo " + (("%%%%%%%" + "100" + "") + (" Bar" + "")) == "Foo %%%%%%%100 Bar";
    var p := PercentPrinter;
    assert AllSources(p, []) == [StringMap(map["Percent" := Int(100)])];
    assert MakeBindings([StringMap(map["Percent" := Int(100)])]) == Bound([map["Percent" := Int(100)]], []);
    assert Token(p) == '%';
    TokenFillSegments();
  }

  lemma TokenFillSegments()
    ensures FormatSegments(PercentPrinter, [map["Percent" := Int(100)]], Lex(TokenAsFill, '%', 0)) == Ok("Foo " + (("%%%%%%%" + "100" + "") + (" Bar" + "")))
  {
    var p := PercentPrinter;
    var t := '%';
    LexTokenAsFill(t);
    var layers := [map["Percent" := Int(100)]];
    assert FormatSegments(p, layers, Lex(TokenAsFill, t, 19)) == Ok("");
    FormatStep(p, layers, Text(" Bar"), Lex(TokenAsFill, t, 19), " Bar", "");
    TokenFillValue();
    assert RenderSegment(p, layers, Placeholder(Directive("%10", "Percent"))) == Ok("%%%%%%%" + "100" + "");
    FormatStep(p, layers, Placeholder(Directive("%10", "Percent")), Lex(TokenAsFill, t, 15), "%%%%%%%" + "100" + "", " Bar" + "");
    FormatStep(p, layers, Text("Foo "), Lex(TokenAsFill, t, 4), "Foo ", ("%%%%%%%" + "100" + "") + (" Bar" + ""));
  }

  /** How the value of TokenFill prints. */
  lemma TokenFillValue()
    ensures RenderSegment(PercentPrinter, [map["Percent" := Int(100)]], Placeholder(Directive("%10", "Percent"))) == Ok("%%%%%%%" + "100" + "")
  {
    var layers := [map["Percent" := Int(100)]];
    var d := Directive("%10", "Percent");
    assert Get(layers, "Percent") == Some(Int(100));
    TokenFillPrint();
    assert PrintValue(PercentPrinter, d, Int(100)) == Ok("%%%%%%%" + "100" + "");
    BoundStep(PercentPrinter, layers, d, Int(100), "%%%%%%%" + "100" + "");
  }

  lemma TokenFillPrint()
    ensures Rendering.DefaultPrint("%10", Int(100)) == Ok("%%%%%%%" + "100" + "")
  {
    PrefixPercent10();
    TokenFillPad();
    assert Decimal.NatToString(10) == "10";
    assert Decimal.NatToString(100) == "100";
    assert Rendering.Render(Int(100), None) == Ok("100");
  }

  lemma TokenFillPad()
    ensures Pad("100", Right, "%", "%", 10) == "%%%%%%%" + "100" + ""
  {
    assert Padding.Tile("%", 1) == "%";
    assert Padding.Tile("%", 2) == "%%";
    assert Padding.Tile("%", 3) == "%%%";
    assert Padding.Tile("%", 4) == "%%%%";
    assert Padding.Tile("%", 5) == "%%%%%";
    assert Padding.Tile("%", 6) == "%%%%%%";
    assert Padding.Tile("%", 7) == "%%%%%%%";
  }
}
