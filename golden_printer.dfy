/** The golden cases of the printer settings: the zero printer, a custom value printer, another token, and keys read as far as they go. */
module PrinterCases {
  import opened Values
  import opened Grammar
  import opened Lexer
  import opened Bindings
  import opened Formatter
  import opened Templates
  import Decimal
  import opened Padding
  import Rendering
  import opened Prefixes


  /** A printer whose value printer writes nothing for the one call it
      expects and fails on any other. */
  const EightPrinter := Printer('\0', None, None, Some(PrintNothingForEarth), false)

  function PrintNothingForEarth(prefix: string, key: string, v: Value): Option<string> {
    if prefix == "8" && key == "Planet" && v == Str("Earth") then Some("") else None
  }

  const DollarPrinter := Printer('$', None, None, None, false)

  /** The zero-valued printer works: "%" is its token and nothing else needs setting. */
  lemma ZeroValuePrinter()
    ensures Sprintf(ZeroPrinter, HelloPlanet, [StringMap(map["Planet" := Str("Earth")])]) == Ok("Hello Earth!")
  {
    assert "Hello " + ("Earth" + ("!" + "")) == "Hello Earth!";
    var p := ZeroPrinter;
    assert AllSources(p, [StringMap(map["Planet" := Str("Earth")])]) == [StringMap(map["Planet" := Str("Earth")])];
    assert MakeBindings([StringMap(map["Planet" := Str("Earth")])]) == Bound([map["Planet" := Str("Earth")]], []);
    assert Token(p) == '%';
    ZeroValuePrinterSegments();
  }

  lemma ZeroValuePrinterSegments()
    ensures FormatSegments(ZeroPrinter, [map["Planet" := Str("Earth")]], Lex(HelloPlanet, '%', 0)) == Ok("Hello " + ("Earth" + ("!" + "")))
  {
    var p := ZeroPrinter;
    var t := '%';
    LexHelloPlanet(t);
    var layers := [map["Planet" := Str("Earth")]];
    assert FormatSegments(p, layers, Lex(HelloPlanet, t, 14)) == Ok("");
    FormatStep(p, layers, Text("!"), Lex(HelloPlanet, t, 14), "!", "");
    assert RenderSegment(p, layers, Placeholder(Directive("", "Planet"))) == Ok("Earth");
    FormatStep(p, layers, Placeholder(Directive("", "Planet")), Lex(HelloPlanet, t, 13), "Earth", "!" + "");
    FormatStep(p, layers, Text("Hello "), Lex(HelloPlanet, t, 6), "Hello ", "Earth" + ("!" + ""));
  }

  /** A custom value printer is handed the raw prefix, the key and the value, and its text is written as it is, unpadded. */
  lemma CustomPrintValue()
    ensures Sprintf(EightPrinter, HelloEightPlanet, [StringMap(map["Planet" := Str("Earth")])]) == Ok("Hello !")
  {
    assert "Hello " + ("" + ("!" + "")) == "Hello !";
    var p := EightPrinter;
    assert AllSources(p, [StringMap(map["Planet" := Str("Earth")])]) == [StringMap(map["Planet" := Str("Earth")])];
    assert MakeBindings([StringMap(map["Planet" := Str("Earth")])]) == Bound([map["Planet" := Str("Earth")]], []);
    assert Token(p) == '%';
    CustomPrintValueSegments();
  }

  lemma CustomPrintValueSegments()
    ensures FormatSegments(EightPrinter, [map["Planet" := Str("Earth")]], Lex(HelloEightPlanet, '%', 0)) == Ok("Hello " + ("" + ("!" + "")))
  {
    var p := EightPrinter;
    var t := '%';
    LexHelloEightPlanet(t);
    var layers := [map["Planet" := Str("Earth")]];
    assert FormatSegments(p, layers, Lex(HelloEightPlanet, t, 15)) == Ok("");
    FormatStep(p, layers, Text("!"), Lex(HelloEightPlanet, t, 15), "!", "");
    assert RenderSegment(p, layers, Placeholder(Directive("8", "Planet"))) == Ok("");
    FormatStep(p, layers, Placeholder(Directive("8", "Planet")), Lex(HelloEightPlanet, t, 14), "", "!" + "");
    FormatStep(p, layers, Text("Hello "), Lex(HelloEightPlanet, t, 6), "Hello ", "" + ("!" + ""));
  }

  /** A key is read as far as it goes: "%Foo!" is the key Foo, never FooBar. */
  lemma LongestKeyOnly()
    ensures Sprintf(PackagePrinter, HelloFoo, [StringMap(map["Foo" := Str("World"), "FooBar" := Str("Jupiter"), "Bar" := Str("Mars")])]) == Ok("Hello World!")
  {
    assert "Hello " + ("World" + ("!" + "")) == "Hello World!";
    var p := PackagePrinter;
    assert AllSources(p, [StringMap(map["Foo" := Str("World"), "FooBar" := Str("Jupiter"), "Bar" := Str("Mars")])]) == [StringMap(map["Foo" := Str("World"), "FooBar" := Str("Jupiter"), "Bar" := Str("Mars")])];
    assert MakeBindings([StringMap(map["Foo" := Str("World"), "FooBar" := Str("Jupiter"), "Bar" := Str("Mars")])]) == Bound([map["Foo" := Str("World"), "FooBar" := Str("Jupiter"), "Bar" := Str("Mars")]], []);
    assert Token(p) == '%';
    LongestKeyOnlySegments();
  }

  lemma LongestKeyOnlySegments()
    ensures FormatSegments(PackagePrinter, [map["Foo" := Str("World"), "FooBar" := Str("Jupiter"), "Bar" := Str("Mars")]], Lex(HelloFoo, '%', 0)) == Ok("Hello " + ("World" + ("!" + "")))
  {
    var p := PackagePrinter;
    var t := '%';
    LexHelloFoo(t);
    var layers := [map["Foo" := Str("World"), "FooBar" := Str("Jupiter"), "Bar" := Str("Mars")]];
    assert FormatSegments(p, layers, Lex(HelloFoo, t, 11)) == Ok("");
    FormatStep(p, layers, Text("!"), Lex(HelloFoo, t, 11), "!", "");
    assert "Foo"[0] != "Bar"[0];
    assert "Foo" in layers[0];
    assert GetUpTo(layers, 1, "Foo") == Some(Str("World"));
    assert Get(layers, "Foo") == Some(Str("World"));
    assert RenderSegment(p, layers, Placeholder(Directive("", "Foo"))) == Ok("World");
    FormatStep(p, layers, Placeholder(Directive("", "Foo")), Lex(HelloFoo, t, 10), "World", "!" + "");
    FormatStep(p, layers, Text("Hello "), Lex(HelloFoo, t, 6), "Hello ", "World" + ("!" + ""));
  }

  /** The longest key is taken even when a shorter bound key is a prefix of it. */
  lemma LongestKeyWins()
    ensures Sprintf(PackagePrinter, TextBye, [StringMap(map["text" := Str("Hello"), "textbye" := Str("Goodbye")])]) == Ok("Goodbye")
  {
    var p := PackagePrinter;
    assert AllSources(p, [StringMap(map["text" := Str("Hello"), "textbye" := Str("Goodbye")])]) == [StringMap(map["text" := Str("Hello"), "textbye" := Str("Goodbye")])];
    assert MakeBindings([StringMap(map["text" := Str("Hello"), "textbye" := Str("Goodbye")])]) == Bound([map["text" := Str("Hello"), "textbye" := Str("Goodbye")]], []);
    var t := Token(p);
    LexTextBye(t);
    var layers := [map["text" := Str("Hello"), "textbye" := Str("Goodbye")]];
    assert FormatSegments(p, layers, Lex(TextBye, t, 8)) == Ok("");
    assert RenderSegment(p, layers, Placeholder(Directive("", "textbye"))) == Ok("Goodbye");
    FormatStep(p, layers, Placeholder(Directive("", "textbye")), Lex(TextBye, t, 8), "Goodbye", "");
    assert "Goodbye" + "" == "Goodbye";
  }

  /** Another character can be the token. */
  lemma CustomToken()
    ensures Sprintf(DollarPrinter, HelloDollarPlanet, [StringMap(map["Planet" := Str("Mercury")])]) == Ok("Hello Mercury!")
  {
    assert "Hello " + ("Mercury" + ("!" + "")) == "Hello Mercury!";
    var p := DollarPrinter;
    assert AllSources(p, [StringMap(map["Planet" := Str("Mercury")])]) == [StringMap(map["Planet" := Str("Mercury")])];
    assert MakeBindings([StringMap(map["Planet" := Str("Mercury")])]) == Bound([map["Planet" := Str("Mercury")]], []);
    assert Token(p) == '$';
    CustomTokenSegments();
  }

  lemma CustomTokenSegments()
    ensures FormatSegments(DollarPrinter, [map["Planet" := Str("Mercury")]], Lex(HelloDollarPlanet, '$', 0)) == Ok("Hello " + ("Mercury" + ("!" + "")))
  {
    var p := DollarPrinter;
    var t := '$';
    LexHelloDollarPlanet(t);
    var layers := [map["Planet" := Str("Mercury")]];
    assert FormatSegments(p, layers, Lex(HelloDollarPlanet, t, 14)) == Ok("");
    FormatStep(p, layers, Text("!"), Lex(HelloDollarPlanet, t, 14), "!", "");
    assert RenderSegment(p, layers, Placeholder(Directive("", "Planet"))) == Ok("Mercury");
    FormatStep(p, layers, Placeholder(Directive("", "Planet")), Lex(HelloDollarPlanet, t, 13), "Mercury", "!" + "");
    FormatStep(p, layers, Text("Hello "), Lex(HelloDollarPlanet, t, 6), "Hello ", "Mercury" + ("!" + ""));
  }
}
