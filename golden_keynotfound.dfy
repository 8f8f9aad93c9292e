/** The golden cases of the key-not-found strategies. */
module KeyNotFoundCases {
  import opened Values
  import opened Grammar
  import opened Lexer
  import opened Bindings
  import opened Formatter
  import opened Templates
  import Decimal
  import opened Padding
  import Rendering
  import opened Prefixes


  const MarsDefault := Printer('\0', None, Some(DefaultValue(Str("Mars"))), None, false)
  const KeepPrinter := Printer('\0', None, Some(KeepKey), None, false)
  const ClearPrinter := Printer('\0', None, Some(ClearKey), None, false)

  /** A hook that has Mars printed for the key Planet and fails on any other. */
  function MarsForPlanet(prefix: string, key: string): NotFoundAction {
    if key == "Planet" then Substitute(Str("Mars")) else Fail
  }

  const MarsHookPrinter := Printer('%', None, Some(CustomKeyNotFound(MarsForPlanet)), None, false)

  /** A hook that always reports an error. */
  function AlwaysFails(prefix: string, key: string): NotFoundAction { Fail }

  const FailingHookSuppressed := Printer('%', None, Some(CustomKeyNotFound(AlwaysFails)), None, true)
  const FailingHookStrict := Printer('%', None, Some(CustomKeyNotFound(AlwaysFails)), None, false)

  /** DefaultValue("Mars") prints Mars with the directive's modifiers: "%Planet" prints "Mars". */
  lemma DefaultAlone()
    ensures Sprintf(MarsDefault, Planet, []) == Ok("Mars")
  {
    var p := MarsDefault;
    assert AllSources(p, []) == [];
    assert MakeBindings([]) == Bound([], []);
    var t := Token(p);
    LexPlanet(t);
    var layers := [];
    assert FormatSegments(p, layers, Lex(Planet, t, 7)) == Ok("");
    assert RenderSegment(p, layers, Placeholder(Directive("", "Planet"))) == Ok("Mars");
    FormatStep(p, layers, Placeholder(Directive("", "Planet")), Lex(Planet, t, 7), "Mars", "");
    assert "Mars" + "" == "Mars";
  }

  /** DefaultValue("Mars") prints Mars with the directive's modifiers: "%Planet!" prints "Mars!". */
  lemma DefaultBang()
    ensures Sprintf(MarsDefault, PlanetBang, []) == Ok("Mars!")
  {
    var p := MarsDefault;
    assert AllSources(p, []) == [];
    assert MakeBindings([]) == Bound([], []);
    var t := Token(p);
    LexPlanetBang(t);
    var layers := [];
    assert FormatSegments(p, layers, Lex(PlanetBang, t, 8)) == Ok("");
    FormatStep(p, layers, Text("!"), Lex(PlanetBang, t, 8), "!", "");
    assert RenderSegment(p, layers, Placeholder(Directive("", "Planet"))) == Ok("Mars");
    FormatStep(p, layers, Placeholder(Directive("", "Planet")), Lex(PlanetBang, t, 7), "Mars", "!" + "");
    assert "Mars" + ("!" + "") == "Mars!";
  }

  /** DefaultValue("Mars") prints Mars with the directive's modifiers: "Foo %Planet!" prints "Foo Mars!". */
  lemma DefaultFoo()
    ensures Sprintf(MarsDefault, FooPlanetBang, []) == Ok("Foo Mars!")
  {
    assert "Foo " + ("Mars" + ("!" + "")) == "Foo Mars!";
    var p := MarsDefault;
    assert AllSources(p, []) == [];
    assert MakeBindings([]) == Bound([], []);
    assert Token(p) == '%';
    DefaultFooSegments();
  }

  lemma DefaultFooSegments()
    ensures FormatSegments(MarsDefault, [], Lex(FooPlanetBang, '%', 0)) == Ok("Foo " + ("Mars" + ("!" + "")))
  {
    var p := MarsDefault;
    var t := '%';
    LexFooPlanetBang(t);
    var layers := [];
    assert FormatSegments(p, layers, Lex(FooPlanetBang, t, 12)) == Ok("");
    FormatStep(p, layers, Text("!"), Lex(FooPlanetBang, t, 12), "!", "");
    assert RenderSegment(p, layers, Placeholder(Directive("", "Planet"))) == Ok("Mars");
    FormatStep(p, layers, Placeholder(Directive("", "Planet")), Lex(FooPlanetBang, t, 11), "Mars", "!" + "");
    FormatStep(p, layers, Text("Foo "), Lex(FooPlanetBang, t, 4), "Foo ", "Mars" + ("!" + ""));
  }

  /** DefaultValue("Mars") prints Mars with the directive's modifiers: "Foo %Planet" prints "Foo Mars". */
  lemma DefaultFooNoBang()
    ensures Sprintf(MarsDefault, FooPlanet, []) == Ok("Foo Mars")
  {
    var p := MarsDefault;
    assert AllSources(p, []) == [];
    assert MakeBindings([]) == Bound([], []);
    var t := Token(p);
    LexFooPlanet(t);
    var layers := [];
    assert FormatSegments(p, layers, Lex(FooPlanet, t, 11)) == Ok("");
    assert RenderSegment(p, layers, Placeholder(Directive("", "Planet"))) == Ok("Mars");
    FormatStep(p, layers, Placeholder(Directive("", "Planet")), Lex(FooPlanet, t, 11), "Mars", "");
    FormatStep(p, layers, Text("Foo "), Lex(FooPlanet, t, 4), "Foo ", "Mars" + "");
    assert "Foo " + ("Mars" + "") == "Foo Mars";
  }

  /** DefaultValue("Mars") prints Mars with the directive's modifiers: "%Planet! Bar" prints "Mars! Bar". */
  lemma DefaultBar()
    ensures Sprintf(MarsDefault, PlanetBangBar, []) == Ok("Mars! Bar")
  {
    var p := MarsDefault;
    assert AllSources(p, []) == [];
    assert MakeBindings([]) == Bound([], []);
    var t := Token(p);
    LexPlanetBangBar(t);
    var layers := [];
    assert FormatSegments(p, layers, Lex(PlanetBangBar, t, 12)) == Ok("");
    FormatStep(p, layers, Text("! Bar"), Lex(PlanetBangBar, t, 12), "! Bar", "");
    assert RenderSegment(p, layers, Placeholder(Directive("", "Planet"))) == Ok("Mars");
    FormatStep(p, layers, Placeholder(Directive("", "Planet")), Lex(PlanetBangBar, t, 7), "Mars", "! Bar" + "");
    assert "Mars" + ("! Bar" + "") == "Mars! Bar";
  }

  /** DefaultValue("Mars") prints Mars with the directive's modifiers: "%Planet Bar" prints "Mars Bar". */
  lemma DefaultBarNoBang()
    ensures Sprintf(MarsDefault, PlanetBar, []) == Ok("Mars Bar")
  {
    var p := MarsDefault;
    assert AllSources(p, []) == [];
    assert MakeBindings([]) == Bound([], []);
    var t := Token(p);
    LexPlanetBar(t);
    var layers := [];
    assert FormatSegments(p, layers, Lex(PlanetBar, t, 11)) == Ok("");
    FormatStep(p, layers, Text(" Bar"), Lex(PlanetBar, t, 11), " Bar", "");
    assert RenderSegment(p, layers, Placeholder(Directive("", "Planet"))) == Ok("Mars");
    FormatStep(p, layers, Placeholder(Directive("", "Planet")), Lex(PlanetBar, t, 7), "Mars", " Bar" + "");
    assert "Mars" + (" Bar" + "") == "Mars Bar";
  }

  /** DefaultValue("Mars") prints Mars with the directive's modifiers: "Foo %Planet! Bar" prints "Foo Mars! Bar". */
  lemma DefaultFooBar()
    ensures Sprintf(MarsDefault, FooPlanetBangBar, []) == Ok("Foo Mars! Bar")
  {
    assert "Foo " + ("Mars" + ("! Bar" + "")) == "Foo Mars! Bar";
    var p := MarsDefault;
    assert AllSources(p, []) == [];
    assert MakeBindings([]) == Bound([], []);
    assert Token(p) == '%';
    DefaultFooBarSegments();
  }

  lemma DefaultFooBarSegments()
    ensures FormatSegments(MarsDefault, [], Lex(FooPlanetBangBar, '%', 0)) == Ok("Foo " + ("Mars" + ("! Bar" + "")))
  {
    var p := MarsDefault;
    var t := '%';
    LexFooPlanetBangBar(t);
    var layers := [];
    assert FormatSegments(p, layers, Lex(FooPlanetBangBar, t, 16)) == Ok("");
    FormatStep(p, layers, Text("! Bar"), Lex(FooPlanetBangBar, t, 16), "! Bar", "");
    assert RenderSegment(p, layers, Placeholder(Directive("", "Planet"))) == Ok("Mars");
    FormatStep(p, layers, Placeholder(Directive("", "Planet")), Lex(FooPlanetBangBar, t, 11), "Mars", "! Bar" + "");
    FormatStep(p, layers, Text("Foo "), Lex(FooPlanetBangBar, t, 4), "Foo ", "Mars" + ("! Bar" + ""));
  }

  /** DefaultValue("Mars") prints Mars with the directive's modifiers: "Foo %Planet Bar" prints "Foo Mars Bar". */
  lemma DefaultFooBarNoBang()
    ensures Sprintf(MarsDefault, FooPlanetBar, []) == Ok("Foo Mars Bar")
  {
    assert "Foo " + ("Mars" + (" Bar" + "")) == "Foo Mars Bar";
    var p := MarsDefault;
    assert AllSources(p, []) == [];
    assert MakeBindings([]) == Bound([], []);
    assert Token(p) == '%';
    DefaultFooBarNoBangSegments();
  }

  lemma DefaultFooBarNoBangSegments()
    ensures FormatSegments(MarsDefault, [], Lex(FooPlanetBar, '%', 0)) == Ok("Foo " + ("Mars" + (" Bar" + "")))
  {
    var p := MarsDefault;
    var t := '%';
    LexFooPlanetBar(t);
    var layers := [];
    assert FormatSegments(p, layers, Lex(FooPlanetBar, t, 15)) == Ok("");
    FormatStep(p, layers, Text(" Bar"), Lex(FooPlanetBar, t, 15), " Bar", "");
    assert RenderSegment(p, layers, Placeholder(Directive("", "Planet"))) == Ok("Mars");
    FormatStep(p, layers, Placeholder(Directive("", "Planet")), Lex(FooPlanetBar, t, 11), "Mars", " Bar" + "");
    FormatStep(p, layers, Text("Foo "), Lex(FooPlanetBar, t, 4), "Foo ", "Mars" + (" Bar" + ""));
  }

  /** DefaultValue("Mars") prints Mars with the directive's modifiers: "Foo %10Planet Bar" prints "Foo       Mars Bar". */
  lemma DefaultWide()
    ensures Sprintf(MarsDefault, FooWidePlanetBar, []) == Ok("Foo       Mars Bar")
  {
    assert "Foo " + (("      " + "Mars" + "") + (" Bar" + "")) == "Foo       Mars Bar";
    var p := MarsDefault;
    assert AllSources(p, []) == [];
    assert MakeBindings([]) == Bound([], []);
    assert Token(p) == '%';
    DefaultWideSegments();
  }

  lemma DefaultWideSegments()
    ensures FormatSegments(MarsDefault, [], Lex(FooWidePlanetBar, '%', 0)) == Ok("Foo " + (("      " + "Mars" + "") + (" Bar" + "")))
  {
    var p := MarsDefault;
    var t := '%';
    LexFooWidePlanetBar(t);
    var layers := [];
    assert FormatSegments(p, layers, Lex(FooWidePlanetBar, t, 17)) == Ok("");
    FormatStep(p, layers, Text(" Bar"), Lex(FooWidePlanetBar, t, 17), " Bar", "");
    DefaultWideValue();
    assert RenderSegment(p, layers, Placeholder(Directive("10", "Planet"))) == Ok("      " + "Mars" + "");
    FormatStep(p, layers, Placeholder(Directive("10", "Planet")), Lex(FooWidePlanetBar, t, 13), "      " + "Mars" + "", " Bar" + "");
    FormatStep(p, layers, Text("Foo "), Lex(FooWidePlanetBar, t, 4), "Foo ", ("      " + "Mars" + "") + (" Bar" + ""));
  }

  /** How the value of DefaultWide prints. */
  lemma DefaultWideValue()
    ensures RenderSegment(MarsDefault, [], Placeholder(Directive("10", "Planet"))) == Ok("      " + "Mars" + "")
  {
    Prefix10();
    assert Padding.Tile(" ", 1) == " ";
    assert Padding.Tile(" ", 2) == "  ";
    assert Padding.Tile(" ", 3) == "   ";
    assert Padding.Tile(" ", 4) == "    ";
    assert Padding.Tile(" ", 5) == "     ";
    assert Padding.Tile(" ", 6) == "      ";
    assert Rendering.Render(Str("Mars"), None) == Ok("Mars");
    assert Pad("Mars", Right, " ", " ", 10) == "      " + "Mars" + "";
    assert Rendering.DefaultPrint("10", Str("Mars")) == Ok("      " + "Mars" + "");
  }

  /** KeepKey writes the directive again: "%Planet" prints "%Planet". */
  lemma KeepAlone()
    ensures Sprintf(KeepPrinter, Planet, []) == Ok("%Planet")
  {
    var p := KeepPrinter;
    assert AllSources(p, []) == [];
    assert MakeBindings([]) == Bound([], []);
    var t := Token(p);
    LexPlanet(t);
    var layers := [];
    assert FormatSegments(p, layers, Lex(Planet, t, 7)) == Ok("");
    assert RenderSegment(p, layers, Placeholder(Directive("", "Planet"))) == Ok(['%'] + "" + "Planet");
    FormatStep(p, layers, Placeholder(Directive("", "Planet")), Lex(Planet, t, 7), ['%'] + "" + "Planet", "");
    assert (['%'] + "" + "Planet") + "" == "%Planet";
  }

  /** KeepKey writes the directive again: "%Planet!" prints "%Planet!". */
  lemma KeepBang()
    ensures Sprintf(KeepPrinter, PlanetBang, []) == Ok("%Planet!")
  {
    var p := KeepPrinter;
    assert AllSources(p, []) == [];
    assert MakeBindings([]) == Bound([], []);
    var t := Token(p);
    LexPlanetBang(t);
    var layers := [];
    assert FormatSegments(p, layers, Lex(PlanetBang, t, 8)) == Ok("");
    FormatStep(p, layers, Text("!"), Lex(PlanetBang, t, 8), "!", "");
    assert RenderSegment(p, layers, Placeholder(Directive("", "Planet"))) == Ok(['%'] + "" + "Planet");
    FormatStep(p, layers, Placeholder(Directive("", "Planet")), Lex(PlanetBang, t, 7), ['%'] + "" + "Planet", "!" + "");
    assert (['%'] + "" + "Planet") + ("!" + "") == "%Planet!";
  }

  /** KeepKey writes the directive again: "Foo %Planet!" prints "Foo %Planet!". */
  lemma KeepFoo()
    ensures Sprintf(KeepPrinter, FooPlanetBang, []) == Ok("Foo %Planet!")
  {
    assert "Foo " + ((['%'] + "" + "Planet") + ("!" + "")) == "Foo %Planet!";
    var p := KeepPrinter;
    assert AllSources(p, []) == [];
    assert MakeBindings([]) == Bound([], []);
    assert Token(p) == '%';
    KeepFooSegments();
  }

  lemma KeepFooSegments()
    ensures FormatSegments(KeepPrinter, [], Lex(FooPlanetBang, '%', 0)) == Ok("Foo " + ((['%'] + "" + "Planet") + ("!" + "")))
  {
    var p := KeepPrinter;
    var t := '%';
    LexFooPlanetBang(t);
    var layers := [];
    assert FormatSegments(p, layers, Lex(FooPlanetBang, t, 12)) == Ok("");
    FormatStep(p, layers, Text("!"), Lex(FooPlanetBang, t, 12), "!", "");
    assert RenderSegment(p, layers, Placeholder(Directive("", "Planet"))) == Ok(['%'] + "" + "Planet");
    FormatStep(p, layers, Placeholder(Directive("", "Planet")), Lex(FooPlanetBang, t, 11), ['%'] + "" + "Planet", "!" + "");
    FormatStep(p, layers, Text("Foo "), Lex(FooPlanetBang, t, 4), "Foo ", (['%'] + "" + "Planet") + ("!" + ""));
  }

  /** KeepKey writes the directive again: "Foo %Planet" prints "Foo %Planet". */
  lemma KeepFooNoBang()
    ensures Sprintf(KeepPrinter, FooPlanet, []) == Ok("Foo %Planet")
  {
    var p := KeepPrinter;
    assert AllSources(p, []) == [];
    assert MakeBindings([]) == Bound([], []);
    var t := Token(p);
    LexFooPlanet(t);
    var layers := [];
    assert FormatSegments(p, layers, Lex(FooPlanet, t, 11)) == Ok("");
    assert RenderSegment(p, layers, Placeholder(Directive("", "Planet"))) == Ok(['%'] + "" + "Planet");
    FormatStep(p, layers, Placeholder(Directive("", "Planet")), Lex(FooPlanet, t, 11), ['%'] + "" + "Planet", "");
    FormatStep(p, layers, Text("Foo "), Lex(FooPlanet, t, 4), "Foo ", (['%'] + "" + "Planet") + "");
    assert "Foo " + ((['%'] + "" + "Planet") + "") == "Foo %Planet";
  }

  /** KeepKey writes the directive again: "%Planet! Bar" prints "%Planet! Bar". */
  lemma KeepBar()
    ensures Sprintf(KeepPrinter, PlanetBangBar, []) == Ok("%Planet! Bar")
  {
    var p := KeepPrinter;
    assert AllSources(p, []) == [];
    assert MakeBindings([]) == Bound([], []);
    var t := Token(p);
    LexPlanetBangBar(t);
    var layers := [];
    assert FormatSegments(p, layers, Lex(PlanetBangBar, t, 12)) == Ok("");
    FormatStep(p, layers, Text("! Bar"), Lex(PlanetBangBar, t, 12), "! Bar", "");
    assert RenderSegment(p, layers, Placeholder(Directive("", "Planet"))) == Ok(['%'] + "" + "Planet");
    FormatStep(p, layers, Placeholder(Directive("", "Planet")), Lex(PlanetBangBar, t, 7), ['%'] + "" + "Planet", "! Bar" + "");
    assert (['%'] + "" + "Planet") + ("! Bar" + "") == "%Planet! Bar";
  }

  /** KeepKey writes the directive again: "%Planet Bar" prints "%Planet Bar". */
  lemma KeepBarNoBang()
    ensures Sprintf(KeepPrinter, PlanetBar, []) == Ok("%Planet Bar")
  {
    var p := KeepPrinter;
    assert AllSources(p, []) == [];
    assert MakeBindings([]) == Bound([], []);
    var t := Token(p);
    LexPlanetBar(t);
    var layers := [];
    assert FormatSegments(p, layers, Lex(PlanetBar, t, 11)) == Ok("");
    FormatStep(p, layers, Text(" Bar"), Lex(PlanetBar, t, 11), " Bar", "");
    assert RenderSegment(p, layers, Placeholder(Directive("", "Planet"))) == Ok(['%'] + "" + "Planet");
    FormatStep(p, layers, Placeholder(Directive("", "Planet")), Lex(PlanetBar, t, 7), ['%'] + "" + "Planet", " Bar" + "");
    assert (['%'] + "" + "Planet") + (" Bar" + "") == "%Planet Bar";
  }

  /** KeepKey writes the directive again: "Foo %Planet! Bar" prints "Foo %Planet! Bar". */
  lemma KeepFooBar()
    ensures Sprintf(KeepPrinter, FooPlanetBangBar, []) == Ok("Foo %Planet! Bar")
  {
    assert "Foo " + ((['%'] + "" + "Planet") + ("! Bar" + "")) == "Foo %Planet! Bar";
    var p := KeepPrinter;
    assert AllSources(p, []) == [];
    assert MakeBindings([]) == Bound([], []);
    assert Token(p) == '%';
    KeepFooBarSegments();
  }

  lemma KeepFooBarSegments()
    ensures FormatSegments(KeepPrinter, [], Lex(FooPlanetBangBar, '%', 0)) == Ok("Foo " + ((['%'] + "" + "Planet") + ("! Bar" + "")))
  {
    var p := KeepPrinter;
    var t := '%';
    LexFooPlanetBangBar(t);
    var layers := [];
    assert FormatSegments(p, layers, Lex(FooPlanetBangBar, t, 16)) == Ok("");
    FormatStep(p, layers, Text("! Bar"), Lex(FooPlanetBangBar, t, 16), "! Bar", "");
    assert RenderSegment(p, layers, Placeholder(Directive("", "Planet"))) == Ok(['%'] + "" + "Planet");
    FormatStep(p, layers, Placeholder(Directive("", "Planet")), Lex(FooPlanetBangBar, t, 11), ['%'] + "" + "Planet", "! Bar" + "");
    FormatStep(p, layers, Text("Foo "), Lex(FooPlanetBangBar, t, 4), "Foo ", (['%'] + "" + "Planet") + ("! Bar" + ""));
  }

  /** KeepKey writes the directive again: "Foo %Planet Bar" prints "Foo %Planet Bar". */
  lemma KeepFooBarNoBang()
    ensures Sprintf(KeepPrinter, FooPlanetBar, []) == Ok("Foo %Planet Bar")
  {
    assert "Foo " + ((['%'] + "" + "Planet") + (" Bar" + "")) == "Foo %Planet Bar";
    var p := KeepPrinter;
    assert AllSources(p, []) == [];
    assert MakeBindings([]) == Bound([], []);
    assert Token(p) == '%';
    KeepFooBarNoBangSegments();
  }

  lemma KeepFooBarNoBangSegments()
    ensures FormatSegments(KeepPrinter, [], Lex(FooPlanetBar, '%', 0)) == Ok("Foo " + ((['%'] + "" + "Planet") + (" Bar" + "")))
  {
    var p := KeepPrinter;
    var t := '%';
    LexFooPlanetBar(t);
    var layers := [];
    assert FormatSegments(p, layers, Lex(FooPlanetBar, t, 15)) == Ok("");
    FormatStep(p, layers, Text(" Bar"), Lex(FooPlanetBar, t, 15), " Bar", "");
    assert RenderSegment(p, layers, Placeholder(Directive("", "Planet"))) == Ok(['%'] + "" + "Planet");
    FormatStep(p, layers, Placeholder(Directive("", "Planet")), Lex(FooPlanetBar, t, 11), ['%'] + "" + "Planet", " Bar" + "");
    FormatStep(p, layers, Text("Foo "), Lex(FooPlanetBar, t, 4), "Foo ", (['%'] + "" + "Planet") + (" Bar" + ""));
  }

  /** KeepKey writes the directive again: "Foo %10Planet Bar" prints "Foo %10Planet Bar". */
  lemma KeepWide()
    ensures Sprintf(KeepPrinter, FooWidePlanetBar, []) == Ok("Foo %10Planet Bar")
  {
    assert "Foo " + ((['%'] + "10" + "Planet") + (" Bar" + "")) == "Foo %10Planet Bar";
    var p := KeepPrinter;
    assert AllSources(p, []) == [];
    assert MakeBindings([]) == Bound([], []);
    assert Token(p) == '%';
    KeepWideSegments();
  }

  lemma KeepWideSegments()
    ensures FormatSegments(KeepPrinter, [], Lex(FooWidePlanetBar, '%', 0)) == Ok("Foo " + ((['%'] + "10" + "Planet") + (" Bar" + "")))
  {
    var p := KeepPrinter;
    var t := '%';
    LexFooWidePlanetBar(t);
    var layers := [];
    assert FormatSegments(p, layers, Lex(FooWidePlanetBar, t, 17)) == Ok("");
    FormatStep(p, layers, Text(" Bar"), Lex(FooWidePlanetBar, t, 17), " Bar", "");
    assert RenderSegment(p, layers, Placeholder(Directive("10", "Planet"))) == Ok(['%'] + "10" + "Planet");
    FormatStep(p, layers, Placeholder(Directive("10", "Planet")), Lex(FooWidePlanetBar, t, 13), ['%'] + "10" + "Planet", " Bar" + "");
    FormatStep(p, layers, Text("Foo "), Lex(FooWidePlanetBar, t, 4), "Foo ", (['%'] + "10" + "Planet") + (" Bar" + ""));
  }

  /** ClearKey writes nothing: "%Planet" prints "". */
  lemma ClearAlone()
    ensures Sprintf(ClearPrinter, Planet, []) == Ok("")
  {
    var p := ClearPrinter;
    assert AllSources(p, []) == [];
    assert MakeBindings([]) == Bound([], []);
    var t := Token(p);
    LexPlanet(t);
    var layers := [];
    assert FormatSegments(p, layers, Lex(Planet, t, 7)) == Ok("");
    assert RenderSegment(p, layers, Placeholder(Directive("", "Planet"))) == Ok("");
    FormatStep(p, layers, Placeholder(Directive("", "Planet")), Lex(Planet, t, 7), "", "");
    assert "" + "" == "";
  }

  /** ClearKey writes nothing: "%Planet!" prints "!". */
  lemma ClearBang()
    ensures Sprintf(ClearPrinter, PlanetBang, []) == Ok("!")
  {
    var p := ClearPrinter;
    assert AllSources(p, []) == [];
    assert MakeBindings([]) == Bound([], []);
    var t := Token(p);
    LexPlanetBang(t);
    var layers := [];
    assert FormatSegments(p, layers, Lex(PlanetBang, t, 8)) == Ok("");
    FormatStep(p, layers, Text("!"), Lex(PlanetBang, t, 8), "!", "");
    assert RenderSegment(p, layers, Placeholder(Directive("", "Planet"))) == Ok("");
    FormatStep(p, layers, Placeholder(Directive("", "Planet")), Lex(PlanetBang, t, 7), "", "!" + "");
    assert "" + ("!" + "") == "!";
  }

  /** ClearKey writes nothing: "Foo %Planet!" prints "Foo !". */
  lemma ClearFoo()
    ensures Sprintf(ClearPrinter, FooPlanetBang, []) == Ok("Foo !")
  {
    assert "Foo " + ("" + ("!" + "")) == "Foo !";
    var p := ClearPrinter;
    assert AllSources(p, []) == [];
    assert MakeBindings([]) == Bound([], []);
    assert Token(p) == '%';
    ClearFooSegments();
  }

  lemma ClearFooSegments()
    ensures FormatSegments(ClearPrinter, [], Lex(FooPlanetBang, '%', 0)) == Ok("Foo " + ("" + ("!" + "")))
  {
    var p := ClearPrinter;
    var t := '%';
    LexFooPlanetBang(t);
    var layers := [];
    assert FormatSegments(p, layers, Lex(FooPlanetBang, t, 12)) == Ok("");
    FormatStep(p, layers, Text("!"), Lex(FooPlanetBang, t, 12), "!", "");
    assert RenderSegment(p, layers, Placeholder(Directive("", "Planet"))) == Ok("");
    FormatStep(p, layers, Placeholder(Directive("", "Planet")), Lex(FooPlanetBang, t, 11), "", "!" + "");
    FormatStep(p, layers, Text("Foo "), Lex(FooPlanetBang, t, 4), "Foo ", "" + ("!" + ""));
  }

  /** ClearKey writes nothing: "Foo %Planet" prints "Foo ". */
  lemma ClearFooNoBang()
    ensures Sprintf(ClearPrinter, FooPlanet, []) == Ok("Foo ")
  {
    var p := ClearPrinter;
    assert AllSources(p, []) == [];
    assert MakeBindings([]) == Bound([], []);
    var t := Token(p);
    LexFooPlanet(t);
    var layers := [];
    assert FormatSegments(p, layers, Lex(FooPlanet, t, 11)) == Ok("");
    assert RenderSegment(p, layers, Placeholder(Directive("", "Planet"))) == Ok("");
    FormatStep(p, layers, Placeholder(Directive("", "Planet")), Lex(FooPlanet, t, 11), "", "");
    FormatStep(p, layers, Text("Foo "), Lex(FooPlanet, t, 4), "Foo ", "" + "");
    assert "Foo " + ("" + "") == "Foo ";
  }

  /** ClearKey writes nothing: "%Planet! Bar" prints "! Bar". */
  lemma ClearBar()
    ensures Sprintf(ClearPrinter, PlanetBangBar, []) == Ok("! Bar")
  {
    var p := ClearPrinter;
    assert AllSources(p, []) == [];
    assert MakeBindings([]) == Bound([], []);
    var t := Token(p);
    LexPlanetBangBar(t);
    var layers := [];
    assert FormatSegments(p, layers, Lex(PlanetBangBar, t, 12)) == Ok("");
    FormatStep(p, layers, Text("! Bar"), Lex(PlanetBangBar, t, 12), "! Bar", "");
    assert RenderSegment(p, layers, Placeholder(Directive("", "Planet"))) == Ok("");
    FormatStep(p, layers, Placeholder(Directive("", "Planet")), Lex(PlanetBangBar, t, 7), "", "! Bar" + "");
    assert "" + ("! Bar" + "") == "! Bar";
  }

  /** ClearKey writes nothing: "%Planet Bar" prints " Bar". */
  lemma ClearBarNoBang()
    ensures Sprintf(ClearPrinter, PlanetBar, []) == Ok(" Bar")
  {
    var p := ClearPrinter;
    assert AllSources(p, []) == [];
    assert MakeBindings([]) == Bound([], []);
    var t := Token(p);
    LexPlanetBar(t);
    var layers := [];
    assert FormatSegments(p, layers, Lex(PlanetBar, t, 11)) == Ok("");
    FormatStep(p, layers, Text(" Bar"), Lex(PlanetBar, t, 11), " Bar", "");
    assert RenderSegment(p, layers, Placeholder(Directive("", "Planet"))) == Ok("");
    FormatStep(p, layers, Placeholder(Directive("", "Planet")), Lex(PlanetBar, t, 7), "", " Bar" + "");
    assert "" + (" Bar" + "") == " Bar";
  }

  /** ClearKey writes nothing: "Foo %Planet! Bar" prints "Foo ! Bar". */
  lemma ClearFooBar()
    ensures Sprintf(ClearPrinter, FooPlanetBangBar, []) == Ok("Foo ! Bar")
  {
    assert "Foo " + ("" + ("! Bar" + "")) == "Foo ! Bar";
    var p := ClearPrinter;
    assert AllSources(p, []) == [];
    assert MakeBindings([]) == Bound([], []);
    assert Token(p) == '%';
    ClearFooBarSegments();
  }

  lemma ClearFooBarSegments()
    ensures FormatSegments(ClearPrinter, [], Lex(FooPlanetBangBar, '%', 0)) == Ok("Foo " + ("" + ("! Bar" + "")))
  {
    var p := ClearPrinter;
    var t := '%';
    LexFooPlanetBangBar(t);
    var layers := [];
    assert FormatSegments(p, layers, Lex(FooPlanetBangBar, t, 16)) == Ok("");
    FormatStep(p, layers, Text("! Bar"), Lex(FooPlanetBangBar, t, 16), "! Bar", "");
    assert RenderSegment(p, layers, Placeholder(Directive("", "Planet"))) == Ok("");
    FormatStep(p, layers, Placeholder(Directive("", "Planet")), Lex(FooPlanetBangBar, t, 11), "", "! Bar" + "");
    FormatStep(p, layers, Text("Foo "), Lex(FooPlanetBangBar, t, 4), "Foo ", "" + ("! Bar" + ""));
  }

  /** ClearKey writes nothing: "Foo %Planet Bar" prints "Foo  Bar". */
  lemma ClearFooBarNoBang()
    ensures Sprintf(ClearPrinter, FooPlanetBar, []) == Ok("Foo  Bar")
  {
    assert "Foo " + ("" + (" Bar" + "")) == "Foo  Bar";
    var p := ClearPrinter;
    assert AllSources(p, []) == [];
    assert MakeBindings([]) == Bound([], []);
    assert Token(p) == '%';
    ClearFooBarNoBangSegments();
  }

  lemma ClearFooBarNoBangSegments()
    ensures FormatSegments(ClearPrinter, [], Lex(FooPlanetBar, '%', 0)) == Ok("Foo " + ("" + (" Bar" + "")))
  {
    var p := ClearPrinter;
    var t := '%';
    LexFooPlanetBar(t);
    var layers := [];
    assert FormatSegments(p, layers, Lex(FooPlanetBar, t, 15)) == Ok("");
    FormatStep(p, layers, Text(" Bar"), Lex(FooPlanetBar, t, 15), " Bar", "");
    assert RenderSegment(p, layers, Placeholder(Directive("", "Planet"))) == Ok("");
    FormatStep(p, layers, Placeholder(Directive("", "Planet")), Lex(FooPlanetBar, t, 11), "", " Bar" + "");
    FormatStep(p, layers, Text("Foo "), Lex(FooPlanetBar, t, 4), "Foo ", "" + (" Bar" + ""));
  }

  /** ClearKey writes nothing: "Foo %10Planet Bar" prints "Foo  Bar". */
  lemma ClearWide()
    ensures Sprintf(ClearPrinter, FooWidePlanetBar, []) == Ok("Foo  Bar")
  {
    assert "Foo " + ("" + (" Bar" + "")) == "Foo  Bar";
    var p := ClearPrinter;
    assert AllSources(p, []) == [];
    assert MakeBindings([]) == Bound([], []);
    assert Token(p) == '%';
    ClearWideSegments();
  }

  lemma ClearWideSegments()
    ensures FormatSegments(ClearPrinter, [], Lex(FooWidePlanetBar, '%', 0)) == Ok("Foo " + ("" + (" Bar" + "")))
  {
    var p := ClearPrinter;
    var t := '%';
    LexFooWidePlanetBar(t);
    var layers := [];
    assert FormatSegments(p, layers, Lex(FooWidePlanetBar, t, 17)) == Ok("");
    FormatStep(p, layers, Text(" Bar"), Lex(FooWidePlanetBar, t, 17), " Bar", "");
    assert RenderSegment(p, layers, Placeholder(Directive("10", "Planet"))) == Ok("");
    FormatStep(p, layers, Placeholder(Directive("10", "Planet")), Lex(FooWidePlanetBar, t, 13), "", " Bar" + "");
    FormatStep(p, layers, Text("Foo "), Lex(FooWidePlanetBar, t, 4), "Foo ", "" + (" Bar" + ""));
  }

  /** a custom hook that has Mars printed for Planet: "%Planet" prints "Mars". */
  lemma HookAlone()
    ensures Sprintf(MarsHookPrinter, Planet, []) == Ok("Mars")
  {
    var p := MarsHookPrinter;
    assert AllSources(p, []) == [];
    assert MakeBindings([]) == Bound([], []);
    var t := Token(p);
    LexPlanet(t);
    var layers := [];
    assert FormatSegments(p, layers, Lex(Planet, t, 7)) == Ok("");
    assert RenderSegment(p, layers, Placeholder(Directive("", "Planet"))) == Ok("Mars");
    FormatStep(p, layers, Placeholder(Directive("", "Planet")), Lex(Planet, t, 7), "Mars", "");
    assert "Mars" + "" == "Mars";
  }

  /** a custom hook that has Mars printed for Planet: "%Planet!" prints "Mars!". */
  lemma HookBang()
    ensures Sprintf(MarsHookPrinter, PlanetBang, []) == Ok("Mars!")
  {
    var p := MarsHookPrinter;
    assert AllSources(p, []) == [];
    assert MakeBindings([]) == Bound([], []);
    var t := Token(p);
    LexPlanetBang(t);
    var layers := [];
    assert FormatSegments(p, layers, Lex(PlanetBang, t, 8)) == Ok("");
    FormatStep(p, layers, Text("!"), Lex(PlanetBang, t, 8), "!", "");
    assert RenderSegment(p, layers, Placeholder(Directive("", "Planet"))) == Ok("Mars");
    FormatStep(p, layers, Placeholder(Directive("", "Planet")), Lex(PlanetBang, t, 7), "Mars", "!" + "");
    assert "Mars" + ("!" + "") == "Mars!";
  }

  /** a custom hook that has Mars printed for Planet: "Foo %Planet!" prints "Foo Mars!". */
  lemma HookFoo()
    ensures Sprintf(MarsHookPrinter, FooPlanetBang, []) == Ok("Foo Mars!")
  {
    assert "Foo " + ("Mars" + ("!" + "")) == "Foo Mars!";
    var p := MarsHookPrinter;
    assert AllSources(p, []) == [];
    assert MakeBindings([]) == Bound([], []);
    assert Token(p) == '%';
    HookFooSegments();
  }

  lemma HookFooSegments()
    ensures FormatSegments(MarsHookPrinter, [], Lex(FooPlanetBang, '%', 0)) == Ok("Foo " + ("Mars" + ("!" + "")))
  {
    var p := MarsHookPrinter;
    var t := '%';
    LexFooPlanetBang(t);
    var layers := [];
    assert FormatSegments(p, layers, Lex(FooPlanetBang, t, 12)) == Ok("");
    FormatStep(p, layers, Text("!"), Lex(FooPlanetBang, t, 12), "!", "");
    assert RenderSegment(p, layers, Placeholder(Directive("", "Planet"))) == Ok("Mars");
    FormatStep(p, layers, Placeholder(Directive("", "Planet")), Lex(FooPlanetBang, t, 11), "Mars", "!" + "");
    FormatStep(p, layers, Text("Foo "), Lex(FooPlanetBang, t, 4), "Foo ", "Mars" + ("!" + ""));
  }

  /** a custom hook that has Mars printed for Planet: "Foo %Planet" prints "Foo Mars". */
  lemma HookFooNoBang()
    ensures Sprintf(MarsHookPrinter, FooPlanet, []) == Ok("Foo Mars")
  {
    var p := MarsHookPrinter;
    assert AllSources(p, []) == [];
    assert MakeBindings([]) == Bound([], []);
    var t := Token(p);
    LexFooPlanet(t);
    var layers := [];
    assert FormatSegments(p, layers, Lex(FooPlanet, t, 11)) == Ok("");
    assert RenderSegment(p, layers, Placeholder(Directive("", "Planet"))) == Ok("Mars");
    FormatStep(p, layers, Placeholder(Directive("", "Planet")), Lex(FooPlanet, t, 11), "Mars", "");
    FormatStep(p, layers, Text("Foo "), Lex(FooPlanet, t, 4), "Foo ", "Mars" + "");
    assert "Foo " + ("Mars" + "") == "Foo Mars";
  }

  /** a custom hook that has Mars printed for Planet: "%Planet! Bar" prints "Mars! Bar". */
  lemma HookBar()
    ensures Sprintf(MarsHookPrinter, PlanetBangBar, []) == Ok("Mars! Bar")
  {
    var p := MarsHookPrinter;
    assert AllSources(p, []) == [];
    assert MakeBindings([]) == Bound([], []);
    var t := Token(p);
    LexPlanetBangBar(t);
    var layers := [];
    assert FormatSegments(p, layers, Lex(PlanetBangBar, t, 12)) == Ok("");
    FormatStep(p, layers, Text("! Bar"), Lex(PlanetBangBar, t, 12), "! Bar", "");
    assert RenderSegment(p, layers, Placeholder(Directive("", "Planet"))) == Ok("Mars");
    FormatStep(p, layers, Placeholder(Directive("", "Planet")), Lex(PlanetBangBar, t, 7), "Mars", "! Bar" + "");
    assert "Mars" + ("! Bar" + "") == "Mars! Bar";
  }

  /** a custom hook that has Mars printed for Planet: "%Planet Bar" prints "Mars Bar". */
  lemma HookBarNoBang()
    ensures Sprintf(MarsHookPrinter, PlanetBar, []) == Ok("Mars Bar")
  {
    var p := MarsHookPrinter;
    assert AllSources(p, []) == [];
    assert MakeBindings([]) == Bound([], []);
    var t := Token(p);
    LexPlanetBar(t);
    var layers := [];
    assert FormatSegments(p, layers, Lex(PlanetBar, t, 11)) == Ok("");
    FormatStep(p, layers, Text(" Bar"), Lex(PlanetBar, t, 11), " Bar", "");
    assert RenderSegment(p, layers, Placeholder(Directive("", "Planet"))) == Ok("Mars");
    FormatStep(p, layers, Placeholder(Directive("", "Planet")), Lex(PlanetBar, t, 7), "Mars", " Bar" + "");
    assert "Mars" + (" Bar" + "") == "Mars Bar";
  }

  /** a custom hook that has Mars printed for Planet: "Foo %Planet! Bar" prints "Foo Mars! Bar". */
  lemma HookFooBar()
    ensures Sprintf(MarsHookPrinter, FooPlanetBangBar, []) == Ok("Foo Mars! Bar")
  {
    assert "Foo " + ("Mars" + ("! Bar" + "")) == "Foo Mars! Bar";
    var p := MarsHookPrinter;
    assert AllSources(p, []) == [];
    assert MakeBindings([]) == Bound([], []);
    assert Token(p) == '%';
    HookFooBarSegments();
  }

  lemma HookFooBarSegments()
    ensures FormatSegments(MarsHookPrinter, [], Lex(FooPlanetBangBar, '%', 0)) == Ok("Foo " + ("Mars" + ("! Bar" + "")))
  {
    var p := MarsHookPrinter;
    var t := '%';
    LexFooPlanetBangBar(t);
    var layers := [];
    assert FormatSegments(p, layers, Lex(FooPlanetBangBar, t, 16)) == Ok("");
    FormatStep(p, layers, Text("! Bar"), Lex(FooPlanetBangBar, t, 16), "! Bar", "");
    assert RenderSegment(p, layers, Placeholder(Directive("", "Planet"))) == Ok("Mars");
    FormatStep(p, layers, Placeholder(Directive("", "Planet")), Lex(FooPlanetBangBar, t, 11), "Mars", "! Bar" + "");
    FormatStep(p, layers, Text("Foo "), Lex(FooPlanetBangBar, t, 4), "Foo ", "Mars" + ("! Bar" + ""));
  }

  /** a custom hook that has Mars printed for Planet: "Foo %Planet Bar" prints "Foo Mars Bar". */
  lemma HookFooBarNoBang()
    ensures Sprintf(MarsHookPrinter, FooPlanetBar, []) == Ok("Foo Mars Bar")
  {
    assert "Foo " + ("Mars" + (" Bar" + "")) == "Foo Mars Bar";
    var p := MarsHookPrinter;
    assert AllSources(p, []) == [];
    assert MakeBindings([]) == Bound([], []);
    assert Token(p) == '%';
    HookFooBarNoBangSegments();
  }

  lemma HookFooBarNoBangSegments()
    ensures FormatSegments(MarsHookPrinter, [], Lex(FooPlanetBar, '%', 0)) == Ok("Foo " + ("Mars" + (" Bar" + "")))
  {
    var p := MarsHookPrinter;
    var t := '%';
    LexFooPlanetBar(t);
    var layers := [];
    assert FormatSegments(p, layers, Lex(FooPlanetBar, t, 15)) == Ok("");
    FormatStep(p, layers, Text(" Bar"), Lex(FooPlanetBar, t, 15), " Bar", "");
    assert RenderSegment(p, layers, Placeholder(Directive("", "Planet"))) == Ok("Mars");
    FormatStep(p, layers, Placeholder(Directive("", "Planet")), Lex(FooPlanetBar, t, 11), "Mars", " Bar" + "");
    FormatStep(p, layers, Text("Foo "), Lex(FooPlanetBar, t, 4), "Foo ", "Mars" + (" Bar" + ""));
  }

  /** a custom hook that has Mars printed for Planet: "Foo %10Planet Bar" prints "Foo       Mars Bar". */
  lemma HookWide()
    ensures Sprintf(MarsHookPrinter, FooWidePlanetBar, []) == Ok("Foo       Mars Bar")
  {
    assert "Foo " + (("      " + "Mars" + "") + (" Bar" + "")) == "Foo       Mars Bar";
    var p := MarsHookPrinter;
    assert AllSources(p, []) == [];
    assert MakeBindings([]) == Bound([], []);
    assert Token(p) == '%';
    HookWideSegments();
  }

  lemma HookWideSegments()
    ensures FormatSegments(MarsHookPrinter, [], Lex(FooWidePlanetBar, '%', 0)) == Ok("Foo " + (("      " + "Mars" + "") + (" Bar" + "")))
  {
    var p := MarsHookPrinter;
    var t := '%';
    LexFooWidePlanetBar(t);
    var layers := [];
    assert FormatSegments(p, layers, Lex(FooWidePlanetBar, t, 17)) == Ok("");
    FormatStep(p, layers, Text(" Bar"), Lex(FooWidePlanetBar, t, 17), " Bar", "");
    HookWideValue();
    assert RenderSegment(p, layers, Placeholder(Directive("10", "Planet"))) == Ok("      " + "Mars" + "");
    FormatStep(p, layers, Placeholder(Directive("10", "Planet")), Lex(FooWidePlanetBar, t, 13), "      " + "Mars" + "", " Bar" + "");
    FormatStep(p, layers, Text("Foo "), Lex(FooWidePlanetBar, t, 4), "Foo ", ("      " + "Mars" + "") + (" Bar" + ""));
  }

  /** How the value of HookWide prints. */
  lemma HookWideValue()
    ensures RenderSegment(MarsHookPrinter, [], Placeholder(Directive("10", "Planet"))) == Ok("      " + "Mars" + "")
  {
    Prefix10();
    assert Padding.Tile(" ", 1) == " ";
    assert Padding.Tile(" ", 2) == "  ";
    assert Padding.Tile(" ", 3) == "   ";
    assert Padding.Tile(" ", 4) == "    ";
    assert Padding.Tile(" ", 5) == "     ";
    assert Padding.Tile(" ", 6) == "      ";
    assert Rendering.Render(Str("Mars"), None) == Ok("Mars");
    assert Pad("Mars", Right, " ", " ", 10) == "      " + "Mars" + "";
    assert Rendering.DefaultPrint("10", Str("Mars")) == Ok("      " + "Mars" + "");
  }

  /** A failing hook writes nothing when errors are suppressed. */
  lemma HookErrorSuppressed()
    ensures Sprintf(FailingHookSuppressed, Planet, []) == Ok("")
  {
    var p := FailingHookSuppressed;
    assert AllSources(p, []) == [];
    assert MakeBindings([]) == Bound([], []);
    var t := Token(p);
    LexPlanet(t);
    var layers := [];
    assert FormatSegments(p, layers, Lex(Planet, t, 7)) == Ok("");
    assert RenderSegment(p, layers, Placeholder(Directive("", "Planet"))) == Err(StrategyFailed);
    SkipStep(p, layers, Placeholder(Directive("", "Planet")), Lex(Planet, t, 7), "");
  }

  /** A failing hook aborts the call in strict mode. */
  lemma HookErrorStrict()
    ensures Sprintf(FailingHookStrict, Planet, []) == Err(StrategyFailed)
  {
    var p := FailingHookStrict;
    assert AllSources(p, []) == [];
    assert MakeBindings([]) == Bound([], []);
    var t := Token(p);
    LexPlanet(t);
    var layers := [];
    assert FormatSegments(p, layers, Lex(Planet, t, 7)) == Ok("");
    assert RenderSegment(p, layers, Placeholder(Directive("", "Planet"))) == Err(StrategyFailed);
    FailStep(p, layers, Placeholder(Directive("", "Planet")), Lex(Planet, t, 7), StrategyFailed);
  }
}
