/** The golden cases of the modifier prefix: width, alignment, fill and the precision as a list selector. */
module PrefixCases {
  import opened Values
  import opened Grammar
  import opened Lexer
  import opened Bindings
  import opened Formatter
  import opened Templates
  import Decimal
  import opened Padding
  import Rendering
  import opened Prefixes

  /** A width pads on the left and never cuts: "Hello %10Planet!" prints "Hello      Earth!". */
  lemma WidthEarth()
    ensures Sprintf(PackagePrinter, HelloWidthPlanet, [StringMap(map["Planet" := Str("Earth")])]) == Ok("Hello      Earth!")
  {
    assert "Hello " + (("     " + "Earth" + "") + ("!" + "")) == "Hello      Earth!";
    var p := PackagePrinter;
    assert AllSources(p, [StringMap(map["Planet" := Str("Earth")])]) == [StringMap(map["Planet" := Str("Earth")])];
    assert MakeBindings([StringMap(map["Planet" := Str("Earth")])]) == Bound([map["Planet" := Str("Earth")]], []);
    assert Token(p) == '%';
    WidthEarthSegments();
  }

  lemma WidthEarthSegments()
    ensures FormatSegments(PackagePrinter, [map["Planet" := Str("Earth")]], Lex(HelloWidthPlanet, '%', 0)) == Ok("Hello " + (("     " + "Earth" + "") + ("!" + "")))
  {
    var p := PackagePrinter;
    var t := '%';
    LexHelloWidthPlanet(t);
    var layers := [map["Planet" := Str("Earth")]];
    assert FormatSegments(p, layers, Lex(HelloWidthPlanet, t, 16)) == Ok("");
    FormatStep(p, layers, Text("!"), Lex(HelloWidthPlanet, t, 16), "!", "");
    WidthEarthValue();
    assert RenderSegment(p, layers, Placeholder(Directive("10", "Planet"))) == Ok("     " + "Earth" + "");
    FormatStep(p, layers, Placeholder(Directive("10", "Planet")), Lex(HelloWidthPlanet, t, 15), "     " + "Earth" + "", "!" + "");
    FormatStep(p, layers, Text("Hello "), Lex(HelloWidthPlanet, t, 6), "Hello ", ("     " + "Earth" + "") + ("!" + ""));
  }

  /** How the value of WidthEarth prints. */
  lemma WidthEarthValue()
    ensures RenderSegment(PackagePrinter, [map["Planet" := Str("Earth")]], Placeholder(Directive("10", "Planet"))) == Ok("     " + "Earth" + "")
  {
    Prefix10();
    assert Padding.Tile(" ", 1) == " ";
    assert Padding.Tile(" ", 2) == "  ";
    assert Padding.Tile(" ", 3) == "   ";
    assert Padding.Tile(" ", 4) == "    ";
    assert Padding.Tile(" ", 5) == "     ";
    assert Rendering.Render(Str("Earth"), None) == Ok("Earth");
    assert Pad("Earth", Right, " ", " ", 10) == "     " + "Earth" + "";
    assert Rendering.DefaultPrint("10", Str("Earth")) == Ok("     " + "Earth" + "");
  }

  /** A width pads on the left and never cuts: "Hello %10Planet!" prints "Hello Kepler-107!". */
  lemma WidthKepler()
    ensures Sprintf(PackagePrinter, HelloWidthPlanet, [StringMap(map["Planet" := Str("Kepler-107")])]) == Ok("Hello Kepler-107!")
  {
    assert "Hello " + ("Kepler-107" + ("!" + "")) == "Hello Kepler-107!";
    var p := PackagePrinter;
    assert AllSources(p, [StringMap(map["Planet" := Str("Kepler-107")])]) == [StringMap(map["Planet" := Str("Kepler-107")])];
    assert MakeBindings([StringMap(map["Planet" := Str("Kepler-107")])]) == Bound([map["Planet" := Str("Kepler-107")]], []);
    assert Token(p) == '%';
    WidthKeplerSegments();
  }

  lemma WidthKeplerSegments()
    ensures FormatSegments(PackagePrinter, [map["Planet" := Str("Kepler-107")]], Lex(HelloWidthPlanet, '%', 0)) == Ok("Hello " + ("Kepler-107" + ("!" + "")))
  {
    var p := PackagePrinter;
    var t := '%';
    LexHelloWidthPlanet(t);
    var layers := [map["Planet" := Str("Kepler-107")]];
    assert FormatSegments(p, layers, Lex(HelloWidthPlanet, t, 16)) == Ok("");
    FormatStep(p, layers, Text("!"), Lex(HelloWidthPlanet, t, 16), "!", "");
    WidthKeplerValue();
    assert RenderSegment(p, layers, Placeholder(Directive("10", "Planet"))) == Ok("Kepler-107");
    FormatStep(p, layers, Placeholder(Directive("10", "Planet")), Lex(HelloWidthPlanet, t, 15), "Kepler-107", "!" + "");
    FormatStep(p, layers, Text("Hello "), Lex(HelloWidthPlanet, t, 6), "Hello ", "Kepler-107" + ("!" + ""));
  }

  /** How the value of WidthKepler prints. */
  lemma WidthKeplerValue()
    ensures RenderSegment(PackagePrinter, [map["Planet" := Str("Kepler-107")]], Placeholder(Directive("10", "Planet"))) == Ok("Kepler-107")
  {
    Prefix10();
    assert Rendering.Render(Str("Kepler-107"), None) == Ok("Kepler-107");
    assert Rendering.DefaultPrint("10", Str("Kepler-107")) == Ok("Kepler-107");
  }

  /** A width pads on the left and never cuts: "Hello %10Planet!" prints "Hello Starkiller Base!". */
  lemma WidthStarkiller()
    ensures Sprintf(PackagePrinter, HelloWidthPlanet, [StringMap(map["Planet" := Str("Starkiller Base")])]) == Ok("Hello Starkiller Base!")
  {
    assert "Hello " + ("Starkiller Base" + ("!" + "")) == "Hello Starkiller Base!";
    var p := PackagePrinter;
    assert AllSources(p, [StringMap(map["Planet" := Str("Starkiller Base")])]) == [StringMap(map["Planet" := Str("Starkiller Base")])];
    assert MakeBindings([StringMap(map["Planet" := Str("Starkiller Base")])]) == Bound([map["Planet" := Str("Starkiller Base")]], []);
    assert Token(p) == '%';
    WidthStarkillerSegments();
  }

  lemma WidthStarkillerSegments()
    ensures FormatSegments(PackagePrinter, [map["Planet" := Str("Starkiller Base")]], Lex(HelloWidthPlanet, '%', 0)) == Ok("Hello " + ("Starkiller Base" + ("!" + "")))
  {
    var p := PackagePrinter;
    var t := '%';
    LexHelloWidthPlanet(t);
    var layers := [map["Planet" := Str("Starkiller Base")]];
    assert FormatSegments(p, layers, Lex(HelloWidthPlanet, t, 16)) == Ok("");
    FormatStep(p, layers, Text("!"), Lex(HelloWidthPlanet, t, 16), "!", "");
    WidthStarkillerValue();
    assert RenderSegment(p, layers, Placeholder(Directive("10", "Planet"))) == Ok("Starkiller Base");
    FormatStep(p, layers, Placeholder(Directive("10", "Planet")), Lex(HelloWidthPlanet, t, 15), "Starkiller Base", "!" + "");
    FormatStep(p, layers, Text("Hello "), Lex(HelloWidthPlanet, t, 6), "Hello ", "Starkiller Base" + ("!" + ""));
  }

  /** How the value of WidthStarkiller prints. */
  lemma WidthStarkillerValue()
    ensures RenderSegment(PackagePrinter, [map["Planet" := Str("Starkiller Base")]], Placeholder(Directive("10", "Planet"))) == Ok("Starkiller Base")
  {
    Prefix10();
    assert Rendering.Render(Str("Starkiller Base"), None) == Ok("Starkiller Base");
    assert Rendering.DefaultPrint("10", Str("Starkiller Base")) == Ok("Starkiller Base");
  }

  /** "+" aligns right, as with no mark: "Hello %+10Planet!" prints "Hello      Earth!". */
  lemma PlusEarth()
    ensures Sprintf(PackagePrinter, HelloPlusPlanet, [StringMap(map["Planet" := Str("Earth")])]) == Ok("Hello      Earth!")
  {
    assert "Hello " + (("     " + "Earth" + "") + ("!" + "")) == "Hello      Earth!";
    var p := PackagePrinter;
    assert AllSources(p, [StringMap(map["Planet" := Str("Earth")])]) == [StringMap(map["Planet" := Str("Earth")])];
    assert MakeBindings([StringMap(map["Planet" := Str("Earth")])]) == Bound([map["Planet" := Str("Earth")]], []);
    assert Token(p) == '%';
    PlusEarthSegments();
  }

  lemma PlusEarthSegments()
    ensures FormatSegments(PackagePrinter, [map["Planet" := Str("Earth")]], Lex(HelloPlusPlanet, '%', 0)) == Ok("Hello " + (("     " + "Earth" + "") + ("!" + "")))
  {
    var p := PackagePrinter;
    var t := '%';
    LexHelloPlusPlanet(t);
    var layers := [map["Planet" := Str("Earth")]];
    assert FormatSegments(p, layers, Lex(HelloPlusPlanet, t, 17)) == Ok("");
    FormatStep(p, layers, Text("!"), Lex(HelloPlusPlanet, t, 17), "!", "");
    PlusEarthValue();
    assert RenderSegment(p, layers, Placeholder(Directive("+10", "Planet"))) == Ok("     " + "Earth" + "");
    FormatStep(p, layers, Placeholder(Directive("+10", "Planet")), Lex(HelloPlusPlanet, t, 16), "     " + "Earth" + "", "!" + "");
    FormatStep(p, layers, Text("Hello "), Lex(HelloPlusPlanet, t, 6), "Hello ", ("     " + "Earth" + "") + ("!" + ""));
  }

  /** How the value of PlusEarth prints. */
  lemma PlusEarthValue()
    ensures RenderSegment(PackagePrinter, [map["Planet" := Str("Earth")]], Placeholder(Directive("+10", "Planet"))) == Ok("     " + "Earth" + "")
  {
    PrefixPlus10();
    assert Padding.Tile(" ", 1) == " ";
    assert Padding.Tile(" ", 2) == "  ";
    assert Padding.Tile(" ", 3) == "   ";
    assert Padding.Tile(" ", 4) == "    ";
    assert Padding.Tile(" ", 5) == "     ";
    assert Rendering.Render(Str("Earth"), None) == Ok("Earth");
    assert Pad("Earth", Right, " ", " ", 10) == "     " + "Earth" + "";
    assert Rendering.DefaultPrint("+10", Str("Earth")) == Ok("     " + "Earth" + "");
  }

  /** "+" aligns right, as with no mark: "Hello %+10Planet!" prints "Hello Kepler-107!". */
  lemma PlusKepler()
    ensures Sprintf(PackagePrinter, HelloPlusPlanet, [StringMap(map["Planet" := Str("Kepler-107")])]) == Ok("Hello Kepler-107!")
  {
    assert "Hello " + ("Kepler-107" + ("!" + "")) == "Hello Kepler-107!";
    var p := PackagePrinter;
    assert AllSources(p, [StringMap(map["Planet" := Str("Kepler-107")])]) == [StringMap(map["Planet" := Str("Kepler-107")])];
    assert MakeBindings([StringMap(map["Planet" := Str("Kepler-107")])]) == Bound([map["Planet" := Str("Kepler-107")]], []);
    assert Token(p) == '%';
    PlusKeplerSegments();
  }

  lemma PlusKeplerSegments()
    ensures FormatSegments(PackagePrinter, [map["Planet" := Str("Kepler-107")]], Lex(HelloPlusPlanet, '%', 0)) == Ok("Hello " + ("Kepler-107" + ("!" + "")))
  {
    var p := PackagePrinter;
    var t := '%';
    LexHelloPlusPlanet(t);
    var layers := [map["Planet" := Str("Kepler-107")]];
    assert FormatSegments(p, layers, Lex(HelloPlusPlanet, t, 17)) == Ok("");
    FormatStep(p, layers, Text("!"), Lex(HelloPlusPlanet, t, 17), "!", "");
    PlusKeplerValue();
    assert RenderSegment(p, layers, Placeholder(Directive("+10", "Planet"))) == Ok("Kepler-107");
    FormatStep(p, layers, Placeholder(Directive("+10", "Planet")), Lex(HelloPlusPlanet, t, 16), "Kepler-107", "!" + "");
    FormatStep(p, layers, Text("Hello "), Lex(HelloPlusPlanet, t, 6), "Hello ", "Kepler-107" + ("!" + ""));
  }

  /** How the value of PlusKepler prints. */
  lemma PlusKeplerValue()
    ensures RenderSegment(PackagePrinter, [map["Planet" := Str("Kepler-107")]], Placeholder(Directive("+10", "Planet"))) == Ok("Kepler-107")
  {
    PrefixPlus10();
    assert Rendering.Render(Str("Kepler-107"), None) == Ok("Kepler-107");
    assert Rendering.DefaultPrint("+10", Str("Kepler-107")) == Ok("Kepler-107");
  }

  /** "+" aligns right, as with no mark: "Hello %+10Planet!" prints "Hello Starkiller Base!". */
  lemma PlusStarkiller()
    ensures Sprintf(PackagePrinter, HelloPlusPlanet, [StringMap(map["Planet" := Str("Starkiller Base")])]) == Ok("Hello Starkiller Base!")
  {
    assert "Hello " + ("Starkiller Base" + ("!" + "")) == "Hello Starkiller Base!";
    var p := PackagePrinter;
    assert AllSources(p, [StringMap(map["Planet" := Str("Starkiller Base")])]) == [StringMap(map["Planet" := Str("Starkiller Base")])];
    assert MakeBindings([StringMap(map["Planet" := Str("Starkiller Base")])]) == Bound([map["Planet" := Str("Starkiller Base")]], []);
    assert Token(p) == '%';
    PlusStarkillerSegments();
  }

  lemma PlusStarkillerSegments()
    ensures FormatSegments(PackagePrinter, [map["Planet" := Str("Starkiller Base")]], Lex(HelloPlusPlanet, '%', 0)) == Ok("Hello " + ("Starkiller Base" + ("!" + "")))
  {
    var p := PackagePrinter;
    var t := '%';
    LexHelloPlusPlanet(t);
    var layers := [map["Planet" := Str("Starkiller Base")]];
    assert FormatSegments(p, layers, Lex(HelloPlusPlanet, t, 17)) == Ok("");
    FormatStep(p, layers, Text("!"), Lex(HelloPlusPlanet, t, 17), "!", "");
    PlusStarkillerValue();
    assert RenderSegment(p, layers, Placeholder(Directive("+10", "Planet"))) == Ok("Starkiller Base");
    FormatStep(p, layers, Placeholder(Directive("+10", "Planet")), Lex(HelloPlusPlanet, t, 16), "Starkiller Base", "!" + "");
    FormatStep(p, layers, Text("Hello "), Lex(HelloPlusPlanet, t, 6), "Hello ", "Starkiller Base" + ("!" + ""));
  }

  /** How the value of PlusStarkiller prints. */
  lemma PlusStarkillerValue()
    ensures RenderSegment(PackagePrinter, [map["Planet" := Str("Starkiller Base")]], Placeholder(Directive("+10", "Planet"))) == Ok("Starkiller Base")
  {
    PrefixPlus10();
    assert Rendering.Render(Str("Starkiller Base"), None) == Ok("Starkiller Base");
    assert Rendering.DefaultPrint("+10", Str("Starkiller Base")) == Ok("Starkiller Base");
  }

  /** "-" aligns left: "Hello %-10Planet!" prints "Hello Earth     !". */
  lemma MinusEarth()
    ensures Sprintf(PackagePrinter, HelloMinusPlanet, [StringMap(map["Planet" := Str("Earth")])]) == Ok("Hello Earth     !")
  {
    assert "Hello " + (("" + "Earth" + "     ") + ("!" + "")) == "Hello Earth     !";
    var p := PackagePrinter;
    assert AllSources(p, [StringMap(map["Planet" := Str("Earth")])]) == [StringMap(map["Planet" := Str("Earth")])];
    assert MakeBindings([StringMap(map["Planet" := Str("Earth")])]) == Bound([map["Planet" := Str("Earth")]], []);
    assert Token(p) == '%';
    MinusEarthSegments();
  }

  lemma MinusEarthSegments()
    ensures FormatSegments(PackagePrinter, [map["Planet" := Str("Earth")]], Lex(HelloMinusPlanet, '%', 0)) == Ok("Hello " + (("" + "Earth" + "     ") + ("!" + "")))
  {
    var p := PackagePrinter;
    var t := '%';
    LexHelloMinusPlanet(t);
    var layers := [map["Planet" := Str("Earth")]];
    assert FormatSegments(p, layers, Lex(HelloMinusPlanet, t, 17)) == Ok("");
    FormatStep(p, layers, Text("!"), Lex(HelloMinusPlanet, t, 17), "!", "");
    MinusEarthValue();
    assert RenderSegment(p, layers, Placeholder(Directive("-10", "Planet"))) == Ok("" + "Earth" + "     ");
    FormatStep(p, layers, Placeholder(Directive("-10", "Planet")), Lex(HelloMinusPlanet, t, 16), "" + "Earth" + "     ", "!" + "");
    FormatStep(p, layers, Text("Hello "), Lex(HelloMinusPlanet, t, 6), "Hello ", ("" + "Earth" + "     ") + ("!" + ""));
  }

  /** How the value of MinusEarth prints. */
  lemma MinusEarthValue()
    ensures RenderSegment(PackagePrinter, [map["Planet" := Str("Earth")]], Placeholder(Directive("-10", "Planet"))) == Ok("" + "Earth" + "     ")
  {
    PrefixMinus10();
    assert Padding.Tile(" ", 1) == " ";
    assert Padding.Tile(" ", 2) == "  ";
    assert Padding.Tile(" ", 3) == "   ";
    assert Padding.Tile(" ", 4) == "    ";
    assert Padding.Tile(" ", 5) == "     ";
    assert Rendering.Render(Str("Earth"), None) == Ok("Earth");
    assert Pad("Earth", Left, " ", " ", 10) == "" + "Earth" + "     ";
    assert Rendering.DefaultPrint("-10", Str("Earth")) == Ok("" + "Earth" + "     ");
  }

  /** "-" aligns left: "Hello %-10Planet!" prints "Hello Kepler-107!". */
  lemma MinusKepler()
    ensures Sprintf(PackagePrinter, HelloMinusPlanet, [StringMap(map["Planet" := Str("Kepler-107")])]) == Ok("Hello Kepler-107!")
  {
    assert "Hello " + ("Kepler-107" + ("!" + "")) == "Hello Kepler-107!";
    var p := PackagePrinter;
    assert AllSources(p, [StringMap(map["Planet" := Str("Kepler-107")])]) == [StringMap(map["Planet" := Str("Kepler-107")])];
    assert MakeBindings([StringMap(map["Planet" := Str("Kepler-107")])]) == Bound([map["Planet" := Str("Kepler-107")]], []);
    assert Token(p) == '%';
    MinusKeplerSegments();
  }

  lemma MinusKeplerSegments()
    ensures FormatSegments(PackagePrinter, [map["Planet" := Str("Kepler-107")]], Lex(HelloMinusPlanet, '%', 0)) == Ok("Hello " + ("Kepler-107" + ("!" + "")))
  {
    var p := PackagePrinter;
    var t := '%';
    LexHelloMinusPlanet(t);
    var layers := [map["Planet" := Str("Kepler-107")]];
    assert FormatSegments(p, layers, Lex(HelloMinusPlanet, t, 17)) == Ok("");
    FormatStep(p, layers, Text("!"), Lex(HelloMinusPlanet, t, 17), "!", "");
    MinusKeplerValue();
    assert RenderSegment(p, layers, Placeholder(Directive("-10", "Planet"))) == Ok("Kepler-107");
    FormatStep(p, layers, Placeholder(Directive("-10", "Planet")), Lex(HelloMinusPlanet, t, 16), "Kepler-107", "!" + "");
    FormatStep(p, layers, Text("Hello "), Lex(HelloMinusPlanet, t, 6), "Hello ", "Kepler-107" + ("!" + ""));
  }

  /** How the value of MinusKepler prints. */
  lemma MinusKeplerValue()
    ensures RenderSegment(PackagePrinter, [map["Planet" := Str("Kepler-107")]], Placeholder(Directive("-10", "Planet"))) == Ok("Kepler-107")
  {
    PrefixMinus10();
    assert Rendering.Render(Str("Kepler-107"), None) == Ok("Kepler-107");
    assert Rendering.DefaultPrint("-10", Str("Kepler-107")) == Ok("Kepler-107");
  }

  /** "-" aligns left: "Hello %-10Planet!" prints "Hello Starkiller Base!". */
  lemma MinusStarkiller()
    ensures Sprintf(PackagePrinter, HelloMinusPlanet, [StringMap(map["Planet" := Str("Starkiller Base")])]) == Ok("Hello Starkiller Base!")
  {
    assert "Hello " + ("Starkiller Base" + ("!" + "")) == "Hello Starkiller Base!";
    var p := PackagePrinter;
    assert AllSources(p, [StringMap(map["Planet" := Str("Starkiller Base")])]) == [StringMap(map["Planet" := Str("Starkiller Base")])];
    assert MakeBindings([StringMap(map["Planet" := Str("Starkiller Base")])]) == Bound([map["Planet" := Str("Starkiller Base")]], []);
    assert Token(p) == '%';
    MinusStarkillerSegments();
  }

  lemma MinusStarkillerSegments()
    ensures FormatSegments(PackagePrinter, [map["Planet" := Str("Starkiller Base")]], Lex(HelloMinusPlanet, '%', 0)) == Ok("Hello " + ("Starkiller Base" + ("!" + "")))
  {
    var p := PackagePrinter;
    var t := '%';
    LexHelloMinusPlanet(t);
    var layers := [map["Planet" := Str("Starkiller Base")]];
    assert FormatSegments(p, layers, Lex(HelloMinusPlanet, t, 17)) == Ok("");
    FormatStep(p, layers, Text("!"), Lex(HelloMinusPlanet, t, 17), "!", "");
    MinusStarkillerValue();
    assert RenderSegment(p, layers, Placeholder(Directive("-10", "Planet"))) == Ok("Starkiller Base");
    FormatStep(p, layers, Placeholder(Directive("-10", "Planet")), Lex(HelloMinusPlanet, t, 16), "Starkiller Base", "!" + "");
    FormatStep(p, layers, Text("Hello "), Lex(HelloMinusPlanet, t, 6), "Hello ", "Starkiller Base" + ("!" + ""));
  }

  /** How the value of MinusStarkiller prints. */
  lemma MinusStarkillerValue()
    ensures RenderSegment(PackagePrinter, [map["Planet" := Str("Starkiller Base")]], Placeholder(Directive("-10", "Planet"))) == Ok("Starkiller Base")
  {
    PrefixMinus10();
    assert Rendering.Render(Str("Starkiller Base"), None) == Ok("Starkiller Base");
    assert Rendering.DefaultPrint("-10", Str("Starkiller Base")) == Ok("Starkiller Base");
  }

  /** "|" centers, the odd fill character going right: "Hello %|10Planet!" prints "Hello   Earth   !". */
  lemma CenterEarth()
    ensures Sprintf(PackagePrinter, HelloCenterPlanet, [StringMap(map["Planet" := Str("Earth")])]) == Ok("Hello   Earth   !")
  {
    assert "Hello " + (("  " + "Earth" + "   ") + ("!" + "")) == "Hello   Earth   !";
    var p := PackagePrinter;
    assert AllSources(p, [StringMap(map["Planet" := Str("Earth")])]) == [StringMap(map["Planet" := Str("Earth")])];
    assert MakeBindings([StringMap(map["Planet" := Str("Earth")])]) == Bound([map["Planet" := Str("Earth")]], []);
    assert Token(p) == '%';
    CenterEarthSegments();
  }

  lemma CenterEarthSegments()
    ensures FormatSegments(PackagePrinter, [map["Planet" := Str("Earth")]], Lex(HelloCenterPlanet, '%', 0)) == Ok("Hello " + (("  " + "Earth" + "   ") + ("!" + "")))
  {
    var p := PackagePrinter;
    var t := '%';
    LexHelloCenterPlanet(t);
    var layers := [map["Planet" := Str("Earth")]];
    assert FormatSegments(p, layers, Lex(HelloCenterPlanet, t, 17)) == Ok("");
    FormatStep(p, layers, Text("!"), Lex(HelloCenterPlanet, t, 17), "!", "");
    CenterEarthValue();
    assert RenderSegment(p, layers, Placeholder(Directive("|10", "Planet"))) == Ok("  " + "Earth" + "   ");
    FormatStep(p, layers, Placeholder(Directive("|10", "Planet")), Lex(HelloCenterPlanet, t, 16), "  " + "Earth" + "   ", "!" + "");
    FormatStep(p, layers, Text("Hello "), Lex(HelloCenterPlanet, t, 6), "Hello ", ("  " + "Earth" + "   ") + ("!" + ""));
  }

  /** How the value of CenterEarth prints. */
  lemma CenterEarthValue()
    ensures RenderSegment(PackagePrinter, [map["Planet" := Str("Earth")]], Placeholder(Directive("|10", "Planet"))) == Ok("  " + "Earth" + "   ")
  {
    PrefixCenter10();
    assert Padding.Tile(" ", 1) == " ";
    assert Padding.Tile(" ", 2) == "  ";
    assert Padding.Tile(" ", 1) == " ";
    assert Padding.Tile(" ", 2) == "  ";
    assert Padding.Tile(" ", 3) == "   ";
    assert Rendering.Render(Str("Earth"), None) == Ok("Earth");
    assert Pad("Earth", Center, " ", " ", 10) == "  " + "Earth" + "   ";
    assert Rendering.DefaultPrint("|10", Str("Earth")) == Ok("  " + "Earth" + "   ");
  }

  /** "|" centers, the odd fill character going right: "Hello %|10Planet!" prints "Hello Kepler-107!". */
  lemma CenterKepler()
    ensures Sprintf(PackagePrinter, HelloCenterPlanet, [StringMap(map["Planet" := Str("Kepler-107")])]) == Ok("Hello Kepler-107!")
  {
    assert "Hello " + ("Kepler-107" + ("!" + "")) == "Hello Kepler-107!";
    var p := PackagePrinter;
    assert AllSources(p, [StringMap(map["Planet" := Str("Kepler-107")])]) == [StringMap(map["Planet" := Str("Kepler-107")])];
    assert MakeBindings([StringMap(map["Planet" := Str("Kepler-107")])]) == Bound([map["Planet" := Str("Kepler-107")]], []);
    assert Token(p) == '%';
    CenterKeplerSegments();
  }

  lemma CenterKeplerSegments()
    ensures FormatSegments(PackagePrinter, [map["Planet" := Str("Kepler-107")]], Lex(HelloCenterPlanet, '%', 0)) == Ok("Hello " + ("Kepler-107" + ("!" + "")))
  {
    var p := PackagePrinter;
    var t := '%';
    LexHelloCenterPlanet(t);
    var layers := [map["Planet" := Str("Kepler-107")]];
    assert FormatSegments(p, layers, Lex(HelloCenterPlanet, t, 17)) == Ok("");
    FormatStep(p, layers, Text("!"), Lex(HelloCenterPlanet, t, 17), "!", "");
    CenterKeplerValue();
    assert RenderSegment(p, layers, Placeholder(Directive("|10", "Planet"))) == Ok("Kepler-107");
    FormatStep(p, layers, Placeholder(Directive("|10", "Planet")), Lex(HelloCenterPlanet, t, 16), "Kepler-107", "!" + "");
    FormatStep(p, layers, Text("Hello "), Lex(HelloCenterPlanet, t, 6), "Hello ", "Kepler-107" + ("!" + ""));
  }

  /** How the value of CenterKepler prints. */
  lemma CenterKeplerValue()
    ensures RenderSegment(PackagePrinter, [map["Planet" := Str("Kepler-107")]], Placeholder(Directive("|10", "Planet"))) == Ok("Kepler-107")
  {
    PrefixCenter10();
    assert Rendering.Render(Str("Kepler-107"), None) == Ok("Kepler-107");
    assert Rendering.DefaultPrint("|10", Str("Kepler-107")) == Ok("Kepler-107");
  }

  /** "|" centers, the odd fill character going right: "Hello %|10Planet!" prints "Hello Starkiller Base!". */
  lemma CenterStarkiller()
    ensures Sprintf(PackagePrinter, HelloCenterPlanet, [StringMap(map["Planet" := Str("Starkiller Base")])]) == Ok("Hello Starkiller Base!")
  {
    assert "Hello " + ("Starkiller Base" + ("!" + "")) == "Hello Starkiller Base!";
    var p := PackagePrinter;
    assert AllSources(p, [StringMap(map["Planet" := Str("Starkiller Base")])]) == [StringMap(map["Planet" := Str("Starkiller Base")])];
    assert MakeBindings([StringMap(map["Planet" := Str("Starkiller Base")])]) == Bound([map["Planet" := Str("Starkiller Base")]], []);
    assert Token(p) == '%';
    CenterStarkillerSegments();
  }

  lemma CenterStarkillerSegments()
    ensures FormatSegments(PackagePrinter, [map["Planet" := Str("Starkiller Base")]], Lex(HelloCenterPlanet, '%', 0)) == Ok("Hello " + ("Starkiller Base" + ("!" + "")))
  {
    var p := PackagePrinter;
    var t := '%';
    LexHelloCenterPlanet(t);
    var layers := [map["Planet" := Str("Starkiller Base")]];
    assert FormatSegments(p, layers, Lex(HelloCenterPlanet, t, 17)) == Ok("");
    FormatStep(p, layers, Text("!"), Lex(HelloCenterPlanet, t, 17), "!", "");
    CenterStarkillerValue();
    assert RenderSegment(p, layers, Placeholder(Directive("|10", "Planet"))) == Ok("Starkiller Base");
    FormatStep(p, layers, Placeholder(Directive("|10", "Planet")), Lex(HelloCenterPlanet, t, 16), "Starkiller Base", "!" + "");
    FormatStep(p, layers, Text("Hello "), Lex(HelloCenterPlanet, t, 6), "Hello ", "Starkiller Base" + ("!" + ""));
  }

  /** How the value of CenterStarkiller prints. */
  lemma CenterStarkillerValue()
    ensures RenderSegment(PackagePrinter, [map["Planet" := Str("Starkiller Base")]], Placeholder(Directive("|10", "Planet"))) == Ok("Starkiller Base")
  {
    PrefixCenter10();
    assert Rendering.Render(Str("Starkiller Base"), None) == Ok("Starkiller Base");
    assert Rendering.DefaultPrint("|10", Str("Starkiller Base")) == Ok("Starkiller Base");
  }

  /** A fill sequence is tiled from its start on each side: "Hello %|AB10Planet!" prints "Hello ABEarthABA!". */
  lemma CenterFillEarth()
    ensures Sprintf(PackagePrinter, HelloCenterFillPlanet, [StringMap(map["Planet" := Str("Earth")])]) == Ok("Hello ABEarthABA!")
  {
    assert "Hello " + (("AB" + "Earth" + "ABA") + ("!" + "")) == "Hello ABEarthABA!";
    var p := PackagePrinter;
    assert AllSources(p, [StringMap(map["Planet" := Str("Earth")])]) == [StringMap(map["Planet" := Str("Earth")])];
    assert MakeBindings([StringMap(map["Planet" := Str("Earth")])]) == Bound([map["Planet" := Str("Earth")]], []);
    assert Token(p) == '%';
    CenterFillEarthSegments();
  }

  lemma CenterFillEarthSegments()
    ensures FormatSegments(PackagePrinter, [map["Planet" := Str("Earth")]], Lex(HelloCenterFillPlanet, '%', 0)) == Ok("Hello " + (("AB" + "Earth" + "ABA") + ("!" + "")))
  {
    var p := PackagePrinter;
    var t := '%';
    LexHelloCenterFillPlanet(t);
    var layers := [map["Planet" := Str("Earth")]];
    assert FormatSegments(p, layers, Lex(HelloCenterFillPlanet, t, 19)) == Ok("");
    FormatStep(p, layers, Text("!"), Lex(HelloCenterFillPlanet, t, 19), "!", "");
    CenterFillEarthValue();
    assert RenderSegment(p, layers, Placeholder(Directive("|AB10", "Planet"))) == Ok("AB" + "Earth" + "ABA");
    FormatStep(p, layers, Placeholder(Directive("|AB10", "Planet")), Lex(HelloCenterFillPlanet, t, 18), "AB" + "Earth" + "ABA", "!" + "");
    FormatStep(p, layers, Text("Hello "), Lex(HelloCenterFillPlanet, t, 6), "Hello ", ("AB" + "Earth" + "ABA") + ("!" + ""));
  }

  /** How the value of CenterFillEarth prints. */
  lemma CenterFillEarthValue()
    ensures RenderSegment(PackagePrinter, [map["Planet" := Str("Earth")]], Placeholder(Directive("|AB10", "Planet"))) == Ok("AB" + "Earth" + "ABA")
  {
    PrefixCenterAB10();
    assert Padding.Tile("AB", 2) == "AB";
    assert Padding.Tile("AB", 1) == "A";
    assert Padding.Tile("AB", 3) == "ABA";
    assert Rendering.Render(Str("Earth"), None) == Ok("Earth");
    assert Pad("Earth", Center, "AB", "AB", 10) == "AB" + "Earth" + "ABA";
    assert Rendering.DefaultPrint("|AB10", Str("Earth")) == Ok("AB" + "Earth" + "ABA");
  }

  /** A fill sequence is tiled from its start on each side: "Hello %|AB10Planet!" prints "Hello Kepler-107!". */
  lemma CenterFillKepler()
    ensures Sprintf(PackagePrinter, HelloCenterFillPlanet, [StringMap(map["Planet" := Str("Kepler-107")])]) == Ok("Hello Kepler-107!")
  {
    assert "Hello " + ("Kepler-107" + ("!" + "")) == "Hello Kepler-107!";
    var p := PackagePrinter;
    assert AllSources(p, [StringMap(map["Planet" := Str("Kepler-107")])]) == [StringMap(map["Planet" := Str("Kepler-107")])];
    assert MakeBindings([StringMap(map["Planet" := Str("Kepler-107")])]) == Bound([map["Planet" := Str("Kepler-107")]], []);
    assert Token(p) == '%';
    CenterFillKeplerSegments();
  }

  lemma CenterFillKeplerSegments()
    ensures FormatSegments(PackagePrinter, [map["Planet" := Str("Kepler-107")]], Lex(HelloCenterFillPlanet, '%', 0)) == Ok("Hello " + ("Kepler-107" + ("!" + "")))
  {
    var p := PackagePrinter;
    var t := '%';
    LexHelloCenterFillPlanet(t);
    var layers := [map["Planet" := Str("Kepler-107")]];
    assert FormatSegments(p, layers, Lex(HelloCenterFillPlanet, t, 19)) == Ok("");
    FormatStep(p, layers, Text("!"), Lex(HelloCenterFillPlanet, t, 19), "!", "");
    CenterFillKeplerValue();
    assert RenderSegment(p, layers, Placeholder(Directive("|AB10", "Planet"))) == Ok("Kepler-107");
    FormatStep(p, layers, Placeholder(Directive("|AB10", "Planet")), Lex(HelloCenterFillPlanet, t, 18), "Kepler-107", "!" + "");
    FormatStep(p, layers, Text("Hello "), Lex(HelloCenterFillPlanet, t, 6), "Hello ", "Kepler-107" + ("!" + ""));
  }

  /** How the value of CenterFillKepler prints. */
  lemma CenterFillKeplerValue()
    ensures RenderSegment(PackagePrinter, [map["Planet" := Str("Kepler-107")]], Placeholder(Directive("|AB10", "Planet"))) == Ok("Kepler-107")
  {
    PrefixCenterAB10();
    assert Rendering.Render(Str("Kepler-107"), None) == Ok("Kepler-107");
    assert Rendering.DefaultPrint("|AB10", Str("Kepler-107")) == Ok("Kepler-107");
  }

  /** A fill sequence is tiled from its start on each side: "Hello %|AB10Planet!" prints "Hello Starkiller Base!". */
  lemma CenterFillStarkiller()
    ensures Sprintf(PackagePrinter, HelloCenterFillPlanet, [StringMap(map["Planet" := Str("Starkiller Base")])]) == Ok("Hello Starkiller Base!")
  {
    assert "Hello " + ("Starkiller Base" + ("!" + "")) == "Hello Starkiller Base!";
    var p := PackagePrinter;
    assert AllSources(p, [StringMap(map["Planet" := Str("Starkiller Base")])]) == [StringMap(map["Planet" := Str("Starkiller Base")])];
    assert MakeBindings([StringMap(map["Planet" := Str("Starkiller Base")])]) == Bound([map["Planet" := Str("Starkiller Base")]], []);
    assert Token(p) == '%';
    CenterFillStarkillerSegments();
  }

  lemma CenterFillStarkillerSegments()
    ensures FormatSegments(PackagePrinter, [map["Planet" := Str("Starkiller Base")]], Lex(HelloCenterFillPlanet, '%', 0)) == Ok("Hello " + ("Starkiller Base" + ("!" + "")))
  {
    var p := PackagePrinter;
    var t := '%';
    LexHelloCenterFillPlanet(t);
    var layers := [map["Planet" := Str("Starkiller Base")]];
    assert FormatSegments(p, layers, Lex(HelloCenterFillPlanet, t, 19)) == Ok("");
    FormatStep(p, layers, Text("!"), Lex(HelloCenterFillPlanet, t, 19), "!", "");
    CenterFillStarkillerValue();
    assert RenderSegment(p, layers, Placeholder(Directive("|AB10", "Planet"))) == Ok("Starkiller Base");
    FormatStep(p, layers, Placeholder(Directive("|AB10", "Planet")), Lex(HelloCenterFillPlanet, t, 18), "Starkiller Base", "!" + "");
    FormatStep(p, layers, Text("Hello "), Lex(HelloCenterFillPlanet, t, 6), "Hello ", "Starkiller Base" + ("!" + ""));
  }

  /** How the value of CenterFillStarkiller prints. */
  lemma CenterFillStarkillerValue()
    ensures RenderSegment(PackagePrinter, [map["Planet" := Str("Starkiller Base")]], Placeholder(Directive("|AB10", "Planet"))) == Ok("Starkiller Base")
  {
    PrefixCenterAB10();
    assert Rendering.Render(Str("Starkiller Base"), None) == Ok("Starkiller Base");
    assert Rendering.DefaultPrint("|AB10", Str("Starkiller Base")) == Ok("Starkiller Base");
  }

  /** A precision selects a list element. */
  lemma SelectFirst()
    ensures Sprintf(PackagePrinter, HelloFirstPlanet, [StringMap(map["Planets" := List([Str("Earth"), Str("Kepler-107"), Str("Starkiller Base")])])]) == Ok("Hello Earth!")
  {
    assert "Hello " + ("Earth" + ("!" + "")) == "Hello Earth!";
    var p := PackagePrinter;
    assert AllSources(p, [StringMap(map["Planets" := List([Str("Earth"), Str("Kepler-107"), Str("Starkiller Base")])])]) == [StringMap(map["Planets" := List([Str("Earth"), Str("Kepler-107"), Str("Starkiller Base")])])];
    assert MakeBindings([StringMap(map["Planets" := List([Str("Earth"), Str("Kepler-107"), Str("Starkiller Base")])])]) == Bound([map["Planets" := List([Str("Earth"), Str("Kepler-107"), Str("Starkiller Base")])]], []);
    assert Token(p) == '%';
    SelectFirstSegments();
  }

  lemma SelectFirstSegments()
    ensures FormatSegments(PackagePrinter, [map["Planets" := List([Str("Earth"), Str("Kepler-107"), Str("Starkiller Base")])]], Lex(HelloFirstPlanet, '%', 0)) == Ok("Hello " + ("Earth" + ("!" + "")))
  {
    var p := PackagePrinter;
    var t := '%';
    LexHelloFirstPlanet(t);
    var layers := [map["Planets" := List([Str("Earth"), Str("Kepler-107"), Str("Starkiller Base")])]];
    assert FormatSegments(p, layers, Lex(HelloFirstPlanet, t, 17)) == Ok("");
    FormatStep(p, layers, Text("!"), Lex(HelloFirstPlanet, t, 17), "!", "");
    SelectFirstValue();
    assert RenderSegment(p, layers, Placeholder(Directive(".0", "Planets"))) == Ok("Earth");
    FormatStep(p, layers, Placeholder(Directive(".0", "Planets")), Lex(HelloFirstPlanet, t, 16), "Earth", "!" + "");
    FormatStep(p, layers, Text("Hello "), Lex(HelloFirstPlanet, t, 6), "Hello ", "Earth" + ("!" + ""));
  }

  /** How the value of SelectFirst prints. */
  lemma SelectFirstValue()
    ensures RenderSegment(PackagePrinter, [map["Planets" := List([Str("Earth"), Str("Kepler-107"), Str("Starkiller Base")])]], Placeholder(Directive(".0", "Planets"))) == Ok("Earth")
  {
    PrefixDot0();
    assert Rendering.Render(List([Str("Earth"), Str("Kepler-107"), Str("Starkiller Base")]), Some(0)) == Ok("Earth");
    assert Rendering.DefaultPrint(".0", List([Str("Earth"), Str("Kepler-107"), Str("Starkiller Base")])) == Ok("Earth");
  }

  /** A "." with no digits selects element 0. */
  lemma SelectEmptyPrecision()
    ensures Sprintf(PackagePrinter, HelloDotPlanet, [StringMap(map["Planets" := List([Str("Earth"), Str("Kepler-107"), Str("Starkiller Base")])])]) == Ok("Hello Earth!")
  {
    assert "Hello " + ("Earth" + ("!" + "")) == "Hello Earth!";
    var p := PackagePrinter;
    assert AllSources(p, [StringMap(map["Planets" := List([Str("Earth"), Str("Kepler-107"), Str("Starkiller Base")])])]) == [StringMap(map["Planets" := List([Str("Earth"), Str("Kepler-107"), Str("Starkiller Base")])])];
    assert MakeBindings([StringMap(map["Planets" := List([Str("Earth"), Str("Kepler-107"), Str("Starkiller Base")])])]) == Bound([map["Planets" := List([Str("Earth"), Str("Kepler-107"), Str("Starkiller Base")])]], []);
    assert Token(p) == '%';
    SelectEmptyPrecisionSegments();
  }

  lemma SelectEmptyPrecisionSegments()
    ensures FormatSegments(PackagePrinter, [map["Planets" := List([Str("Earth"), Str("Kepler-107"), Str("Starkiller Base")])]], Lex(HelloDotPlanet, '%', 0)) == Ok("Hello " + ("Earth" + ("!" + "")))
  {
    var p := PackagePrinter;
    var t := '%';
    LexHelloDotPlanet(t);
    var layers := [map["Planets" := List([Str("Earth"), Str("Kepler-107"), Str("Starkiller Base")])]];
    assert FormatSegments(p, layers, Lex(HelloDotPlanet, t, 16)) == Ok("");
    FormatStep(p, layers, Text("!"), Lex(HelloDotPlanet, t, 16), "!", "");
    SelectEmptyPrecisionValue();
    assert RenderSegment(p, layers, Placeholder(Directive(".", "Planets"))) == Ok("Earth");
    FormatStep(p, layers, Placeholder(Directive(".", "Planets")), Lex(HelloDotPlanet, t, 15), "Earth", "!" + "");
    FormatStep(p, layers, Text("Hello "), Lex(HelloDotPlanet, t, 6), "Hello ", "Earth" + ("!" + ""));
  }

  /** How the value of SelectEmptyPrecision prints. */
  lemma SelectEmptyPrecisionValue()
    ensures RenderSegment(PackagePrinter, [map["Planets" := List([Str("Earth"), Str("Kepler-107"), Str("Starkiller Base")])]], Placeholder(Directive(".", "Planets"))) == Ok("Earth")
  {
    PrefixDot();
    assert Rendering.Render(List([Str("Earth"), Str("Kepler-107"), Str("Starkiller Base")]), Some(0)) == Ok("Earth");
    assert Rendering.DefaultPrint(".", List([Str("Earth"), Str("Kepler-107"), Str("Starkiller Base")])) == Ok("Earth");
  }

  /** The selected element is padded to the width. */
  lemma SelectPadded()
    ensures Sprintf(PackagePrinter, HelloWideFirstPlanet, [StringMap(map["Planets" := List([Str("Earth"), Str("Kepler-107"), Str("Starkiller Base")])])]) == Ok("Hello      Earth!")
  {
    assert "Hello " + (("     " + "Earth" + "") + ("!" + "")) == "Hello      Earth!";
    var p := PackagePrinter;
    assert AllSources(p, [StringMap(map["Planets" := List([Str("Earth"), Str("Kepler-107"), Str("Starkiller Base")])])]) == [StringMap(map["Planets" := List([Str("Earth"), Str("Kepler-107"), Str("Starkiller Base")])])];
    assert MakeBindings([StringMap(map["Planets" := List([Str("Earth"), Str("Kepler-107"), Str("Starkiller Base")])])]) == Bound([map["Planets" := List([Str("Earth"), Str("Kepler-107"), Str("Starkiller Base")])]], []);
    assert Token(p) == '%';
    SelectPaddedSegments();
  }

  lemma SelectPaddedSegments()
    ensures FormatSegments(PackagePrinter, [map["Planets" := List([Str("Earth"), Str("Kepler-107"), Str("Starkiller Base")])]], Lex(HelloWideFirstPlanet, '%', 0)) == Ok("Hello " + (("     " + "Earth" + "") + ("!" + "")))
  {
    var p := PackagePrinter;
    var t := '%';
    LexHelloWideFirstPlanet(t);
    var layers := [map["Planets" := List([Str("Earth"), Str("Kepler-107"), Str("Starkiller Base")])]];
    assert FormatSegments(p, layers, Lex(HelloWideFirstPlanet, t, 20)) == Ok("");
    FormatStep(p, layers, Text("!"), Lex(HelloWideFirstPlanet, t, 20), "!", "");
    SelectPaddedValue();
    assert RenderSegment(p, layers, Placeholder(Directive("+10.0", "Planets"))) == Ok("     " + "Earth" + "");
    FormatStep(p, layers, Placeholder(Directive("+10.0", "Planets")), Lex(HelloWideFirstPlanet, t, 19), "     " + "Earth" + "", "!" + "");
    FormatStep(p, layers, Text("Hello "), Lex(HelloWideFirstPlanet, t, 6), "Hello ", ("     " + "Earth" + "") + ("!" + ""));
  }

  /** How the value of SelectPadded prints. */
  lemma SelectPaddedValue()
    ensures RenderSegment(PackagePrinter, [map["Planets" := List([Str("Earth"), Str("Kepler-107"), Str("Starkiller Base")])]], Placeholder(Directive("+10.0", "Planets"))) == Ok("     " + "Earth" + "")
  {
    PrefixPlus10Dot0();
    assert Padding.Tile(" ", 1) == " ";
    assert Padding.Tile(" ", 2) == "  ";
    assert Padding.Tile(" ", 3) == "   ";
    assert Padding.Tile(" ", 4) == "    ";
    assert Padding.Tile(" ", 5) == "     ";
    assert Rendering.Render(List([Str("Earth"), Str("Kepler-107"), Str("Starkiller Base")]), Some(0)) == Ok("Earth");
    assert Pad("Earth", Right, " ", " ", 10) == "     " + "Earth" + "";
    assert Rendering.DefaultPrint("+10.0", List([Str("Earth"), Str("Kepler-107"), Str("Starkiller Base")])) == Ok("     " + "Earth" + "");
  }

  /** An index past the end prints nothing when errors are suppressed. */
  lemma SelectPastEnd()
    ensures Sprintf(PackagePrinter, HelloFifthPlanet, [StringMap(map["Planets" := List([Str("Earth"), Str("Kepler-107"), Str("Starkiller Base")])])]) == Ok("Hello !")
  {
    assert "Hello " + ("!" + "") == "Hello !";
    var p := PackagePrinter;
    assert AllSources(p, [StringMap(map["Planets" := List([Str("Earth"), Str("Kepler-107"), Str("Starkiller Base")])])]) == [StringMap(map["Planets" := List([Str("Earth"), Str("Kepler-107"), Str("Starkiller Base")])])];
    assert MakeBindings([StringMap(map["Planets" := List([Str("Earth"), Str("Kepler-107"), Str("Starkiller Base")])])]) == Bound([map["Planets" := List([Str("Earth"), Str("Kepler-107"), Str("Starkiller Base")])]], []);
    assert Token(p) == '%';
    SelectPastEndSegments();
  }

  lemma SelectPastEndSegments()
    ensures FormatSegments(PackagePrinter, [map["Planets" := List([Str("Earth"), Str("Kepler-107"), Str("Starkiller Base")])]], Lex(HelloFifthPlanet, '%', 0)) == Ok("Hello " + ("!" + ""))
  {
    var p := PackagePrinter;
    var t := '%';
    LexHelloFifthPlanet(t);
    var layers := [map["Planets" := List([Str("Earth"), Str("Kepler-107"), Str("Starkiller Base")])]];
    assert FormatSegments(p, layers, Lex(HelloFifthPlanet, t, 17)) == Ok("");
    FormatStep(p, layers, Text("!"), Lex(HelloFifthPlanet, t, 17), "!", "");
    assert RenderSegment(p, layers, Placeholder(Directive(".4", "Planets"))) == Err(IndexOutOfRange(4, 3));
    SkipStep(p, layers, Placeholder(Directive(".4", "Planets")), Lex(HelloFifthPlanet, t, 16), "!" + "");
    FormatStep(p, layers, Text("Hello "), Lex(HelloFifthPlanet, t, 6), "Hello ", "!" + "");
  }

  /** An integer under a precision prints in fixed-point form. */
  lemma IntAsFixedPoint()
    ensures Sprintf(PackagePrinter, FixedThree, [StringMap(map["f" := Int(1)])]) == Ok("1.000")
  {
    var p := PackagePrinter;
    assert AllSources(p, [StringMap(map["f" := Int(1)])]) == [StringMap(map["f" := Int(1)])];
    assert MakeBindings([StringMap(map["f" := Int(1)])]) == Bound([map["f" := Int(1)]], []);
    var t := Token(p);
    LexFixedThree(t);
    var layers := [map["f" := Int(1)]];
    assert FormatSegments(p, layers, Lex(FixedThree, t, 4)) == Ok("");
    IntAsFixedPointValue();
    assert RenderSegment(p, layers, Placeholder(Directive(".3", "f"))) == Ok("1.000");
    FormatStep(p, layers, Placeholder(Directive(".3", "f")), Lex(FixedThree, t, 4), "1.000", "");
    assert "1.000" + "" == "1.000";
  }

  /** How the value of IntAsFixedPoint prints. */
  lemma IntAsFixedPointValue()
    ensures RenderSegment(PackagePrinter, [map["f" := Int(1)]], Placeholder(Directive(".3", "f"))) == Ok("1.000")
  {
    PrefixDot3();
    assert Decimal.Zeros(1) == "0";
    assert Decimal.Zeros(2) == "00";
    assert Decimal.Zeros(3) == "000";
    assert Decimal.FixedPoint(1, 3) == "1.000";
    assert Rendering.Render(Int(1), Some(3)) == Ok("1.000");
    assert Rendering.DefaultPrint(".3", Int(1)) == Ok("1.000");
  }

  /** An unsigned integer under a precision prints in fixed-point form. */
  lemma UintAsFixedPoint()
    ensures Sprintf(PackagePrinter, FixedThree, [StringMap(map["f" := Uint(1)])]) == Ok("1.000")
  {
    var p := PackagePrinter;
    assert AllSources(p, [StringMap(map["f" := Uint(1)])]) == [StringMap(map["f" := Uint(1)])];
    assert MakeBindings([StringMap(map["f" := Uint(1)])]) == Bound([map["f" := Uint(1)]], []);
    var t := Token(p);
    LexFixedThree(t);
    var layers := [map["f" := Uint(1)]];
    assert FormatSegments(p, layers, Lex(FixedThree, t, 4)) == Ok("");
    UintAsFixedPointValue();
    assert RenderSegment(p, layers, Placeholder(Directive(".3", "f"))) == Ok("1.000");
    FormatStep(p, layers, Placeholder(Directive(".3", "f")), Lex(FixedThree, t, 4), "1.000", "");
    assert "1.000" + "" == "1.000";
  }

  /** How the value of UintAsFixedPoint prints. */
  lemma UintAsFixedPointValue()
    ensures RenderSegment(PackagePrinter, [map["f" := Uint(1)]], Placeholder(Directive(".3", "f"))) == Ok("1.000")
  {
    PrefixDot3();
    assert Decimal.Zeros(1) == "0";
    assert Decimal.Zeros(2) == "00";
    assert Decimal.Zeros(3) == "000";
    assert Decimal.FixedPoint(1, 3) == "1.000";
    assert Rendering.Render(Uint(1), Some(3)) == Ok("1.000");
    assert Rendering.DefaultPrint(".3", Uint(1)) == Ok("1.000");
  }

  /** An alignment mark followed by a mark character: "-" then fill "-": left-aligned, filled with dashes. */
  lemma DashFillLeft()
    ensures Sprintf(PackagePrinter, HelloDashFillLeftPlanet, [StringMap(map["Planet" := Str("Earth")])]) == Ok("Hello Earth-----!")
  {
    assert "Hello " + (("" + "Earth" + "-----") + ("!" + "")) == "Hello Earth-----!";
    var p := PackagePrinter;
    assert AllSources(p, [StringMap(map["Planet" := Str("Earth")])]) == [StringMap(map["Planet" := Str("Earth")])];
    assert MakeBindings([StringMap(map["Planet" := Str("Earth")])]) == Bound([map["Planet" := Str("Earth")]], []);
    assert Token(p) == '%';
    DashFillLeftSegments();
  }

  lemma DashFillLeftSegments()
    ensures FormatSegments(PackagePrinter, [map["Planet" := Str("Earth")]], Lex(HelloDashFillLeftPlanet, '%', 0)) == Ok("Hello " + (("" + "Earth" + "-----") + ("!" + "")))
  {
    var p := PackagePrinter;
    var t := '%';
    LexHelloDashFillLeftPlanet(t);
    var layers := [map["Planet" := Str("Earth")]];
    assert FormatSegments(p, layers, Lex(HelloDashFillLeftPlanet, t, 18)) == Ok("");
    FormatStep(p, layers, Text("!"), Lex(HelloDashFillLeftPlanet, t, 18), "!", "");
    DashFillLeftValue();
    assert RenderSegment(p, layers, Placeholder(Directive("--10", "Planet"))) == Ok("" + "Earth" + "-----");
    FormatStep(p, layers, Placeholder(Directive("--10", "Planet")), Lex(HelloDashFillLeftPlanet, t, 17), "" + "Earth" + "-----", "!" + "");
    FormatStep(p, layers, Text("Hello "), Lex(HelloDashFillLeftPlanet, t, 6), "Hello ", ("" + "Earth" + "-----") + ("!" + ""));
  }

  /** How the value of DashFillLeft prints. */
  lemma DashFillLeftValue()
    ensures RenderSegment(PackagePrinter, [map["Planet" := Str("Earth")]], Placeholder(Directive("--10", "Planet"))) == Ok("" + "Earth" + "-----")
  {
    PrefixMinusMinus10();
    assert Padding.Tile("-", 1) == "-";
    assert Padding.Tile("-", 2) == "--";
    assert Padding.Tile("-", 3) == "---";
    assert Padding.Tile("-", 4) == "----";
    assert Padding.Tile("-", 5) == "-----";
    assert Rendering.Render(Str("Earth"), None) == Ok("Earth");
    assert Pad("Earth", Left, "-", "-", 10) == "" + "Earth" + "-----";
    assert Rendering.DefaultPrint("--10", Str("Earth")) == Ok("" + "Earth" + "-----");
  }

  /** An alignment mark followed by a mark character: "+" then fill "-": right-aligned, filled with dashes. */
  lemma DashFillRight()
    ensures Sprintf(PackagePrinter, HelloDashFillRightPlanet, [StringMap(map["Planet" := Str("Earth")])]) == Ok("Hello -----Earth!")
  {
    assert "Hello " + (("-----" + "Earth" + "") + ("!" + "")) == "Hello -----Earth!";
    var p := PackagePrinter;
    assert AllSources(p, [StringMap(map["Planet" := Str("Earth")])]) == [StringMap(map["Planet" := Str("Earth")])];
    assert MakeBindings([StringMap(map["Planet" := Str("Earth")])]) == Bound([map["Planet" := Str("Earth")]], []);
    assert Token(p) == '%';
    DashFillRightSegments();
  }

  lemma DashFillRightSegments()
    ensures FormatSegments(PackagePrinter, [map["Planet" := Str("Earth")]], Lex(HelloDashFillRightPlanet, '%', 0)) == Ok("Hello " + (("-----" + "Earth" + "") + ("!" + "")))
  {
    var p := PackagePrinter;
    var t := '%';
    LexHelloDashFillRightPlanet(t);
    var layers := [map["Planet" := Str("Earth")]];
    assert FormatSegments(p, layers, Lex(HelloDashFillRightPlanet, t, 18)) == Ok("");
    FormatStep(p, layers, Text("!"), Lex(HelloDashFillRightPlanet, t, 18), "!", "");
    DashFillRightValue();
    assert RenderSegment(p, layers, Placeholder(Directive("+-10", "Planet"))) == Ok("-----" + "Earth" + "");
    FormatStep(p, layers, Placeholder(Directive("+-10", "Planet")), Lex(HelloDashFillRightPlanet, t, 17), "-----" + "Earth" + "", "!" + "");
    FormatStep(p, layers, Text("Hello "), Lex(HelloDashFillRightPlanet, t, 6), "Hello ", ("-----" + "Earth" + "") + ("!" + ""));
  }

  /** How the value of DashFillRight prints. */
  lemma DashFillRightValue()
    ensures RenderSegment(PackagePrinter, [map["Planet" := Str("Earth")]], Placeholder(Directive("+-10", "Planet"))) == Ok("-----" + "Earth" + "")
  {
    PrefixPlusMinus10();
    assert Padding.Tile("-", 1) == "-";
    assert Padding.Tile("-", 2) == "--";
    assert Padding.Tile("-", 3) == "---";
    assert Padding.Tile("-", 4) == "----";
    assert Padding.Tile("-", 5) == "-----";
    assert Rendering.Render(Str("Earth"), None) == Ok("Earth");
    assert Pad("Earth", Right, "-", "-", 10) == "-----" + "Earth" + "";
    assert Rendering.DefaultPrint("+-10", Str("Earth")) == Ok("-----" + "Earth" + "");
  }

  /** An alignment mark followed by a mark character: "-" then fill "+": left-aligned, filled with plus signs. */
  lemma PlusFillLeft()
    ensures Sprintf(PackagePrinter, HelloPlusFillLeftPlanet, [StringMap(map["Planet" := Str("Earth")])]) == Ok("Hello Earth+++++!")
  {
    assert "Hello " + (("" + "Earth" + "+++++") + ("!" + "")) == "Hello Earth+++++!";
    var p := PackagePrinter;
    assert AllSources(p, [StringMap(map["Planet" := Str("Earth")])]) == [StringMap(map["Planet" := Str("Earth")])];
    assert MakeBindings([StringMap(map["Planet" := Str("Earth")])]) == Bound([map["Planet" := Str("Earth")]], []);
    assert Token(p) == '%';
    PlusFillLeftSegments();
  }

  lemma PlusFillLeftSegments()
    ensures FormatSegments(PackagePrinter, [map["Planet" := Str("Earth")]], Lex(HelloPlusFillLeftPlanet, '%', 0)) == Ok("Hello " + (("" + "Earth" + "+++++") + ("!" + "")))
  {
    var p := PackagePrinter;
    var t := '%';
    LexHelloPlusFillLeftPlanet(t);
    var layers := [map["Planet" := Str("Earth")]];
    assert FormatSegments(p, layers, Lex(HelloPlusFillLeftPlanet, t, 18)) == Ok("");
    FormatStep(p, layers, Text("!"), Lex(HelloPlusFillLeftPlanet, t, 18), "!", "");
    PlusFillLeftValue();
    assert RenderSegment(p, layers, Placeholder(Directive("-+10", "Planet"))) == Ok("" + "Earth" + "+++++");
    FormatStep(p, layers, Placeholder(Directive("-+10", "Planet")), Lex(HelloPlusFillLeftPlanet, t, 17), "" + "Earth" + "+++++", "!" + "");
    FormatStep(p, layers, Text("Hello "), Lex(HelloPlusFillLeftPlanet, t, 6), "Hello ", ("" + "Earth" + "+++++") + ("!" + ""));
  }

  /** How the value of PlusFillLeft prints. */
  lemma PlusFillLeftValue()
    ensures RenderSegment(PackagePrinter, [map["Planet" := Str("Earth")]], Placeholder(Directive("-+10", "Planet"))) == Ok("" + "Earth" + "+++++")
  {
    PrefixMinusPlus10();
    assert Padding.Tile("+", 1) == "+";
    assert Padding.Tile("+", 2) == "++";
    assert Padding.Tile("+", 3) == "+++";
    assert Padding.Tile("+", 4) == "++++";
    assert Padding.Tile("+", 5) == "+++++";
    assert Rendering.Render(Str("Earth"), None) == Ok("Earth");
    assert Pad("Earth", Left, "+", "+", 10) == "" + "Earth" + "+++++";
    assert Rendering.DefaultPrint("-+10", Str("Earth")) == Ok("" + "Earth" + "+++++");
  }

  /** An alignment mark followed by a mark character: "+" then fill "+": right-aligned, filled with plus signs. */
  lemma PlusFillRight()
    ensures Sprintf(PackagePrinter, HelloPlusFillRightPlanet, [StringMap(map["Planet" := Str("Earth")])]) == Ok("Hello +++++Earth!")
  {
    assert "Hello " + (("+++++" + "Earth" + "") + ("!" + "")) == "Hello +++++Earth!";
    var p := PackagePrinter;
    assert AllSources(p, [StringMap(map["Planet" := Str("Earth")])]) == [StringMap(map["Planet" := Str("Earth")])];
    assert MakeBindings([StringMap(map["Planet" := Str("Earth")])]) == Bound([map["Planet" := Str("Earth")]], []);
    assert Token(p) == '%';
    PlusFillRightSegments();
  }

  lemma PlusFillRightSegments()
    ensures FormatSegments(PackagePrinter, [map["Planet" := Str("Earth")]], Lex(HelloPlusFillRightPlanet, '%', 0)) == Ok("Hello " + (("+++++" + "Earth" + "") + ("!" + "")))
  {
    var p := PackagePrinter;
    var t := '%';
    LexHelloPlusFillRightPlanet(t);
    var layers := [map["Planet" := Str("Earth")]];
    assert FormatSegments(p, layers, Lex(HelloPlusFillRightPlanet, t, 18)) == Ok("");
    FormatStep(p, layers, Text("!"), Lex(HelloPlusFillRightPlanet, t, 18), "!", "");
    PlusFillRightValue();
    assert RenderSegment(p, layers, Placeholder(Directive("++10", "Planet"))) == Ok("+++++" + "Earth" + "");
    FormatStep(p, layers, Placeholder(Directive("++10", "Planet")), Lex(HelloPlusFillRightPlanet, t, 17), "+++++" + "Earth" + "", "!" + "");
    FormatStep(p, layers, Text("Hello "), Lex(HelloPlusFillRightPlanet, t, 6), "Hello ", ("+++++" + "Earth" + "") + ("!" + ""));
  }

  /** How the value of PlusFillRight prints. */
  lemma PlusFillRightValue()
    ensures RenderSegment(PackagePrinter, [map["Planet" := Str("Earth")]], Placeholder(Directive("++10", "Planet"))) == Ok("+++++" + "Earth" + "")
  {
    PrefixPlusPlus10();
    assert Padding.Tile("+", 1) == "+";
    assert Padding.Tile("+", 2) == "++";
    assert Padding.Tile("+", 3) == "+++";
    assert Padding.Tile("+", 4) == "++++";
    assert Padding.Tile("+", 5) == "+++++";
    assert Rendering.Render(Str("Earth"), None) == Ok("Earth");
    assert Pad("Earth", Right, "+", "+", 10) == "+++++" + "Earth" + "";
    assert Rendering.DefaultPrint("++10", Str("Earth")) == Ok("+++++" + "Earth" + "");
  }
}
