/** The golden cases of the binding sources, their precedence, and the error policy. */
module BindingCases {
  import opened Values
  import opened Grammar
  import opened Lexer
  import opened Bindings
  import opened Formatter
  import opened Templates
  import Decimal
  import opened Padding
  import Rendering
  import opened Prefixes


  /** A printer with the default bindings Key1 = "Value1" and Key2 =
      "Value2" that suppresses errors. */
  const BindingsPrinter := Printer('\0', Some(StringMap(map["Key1" := Str("Value1"), "Key2" := Str("Value2")])), None, None, true)

  /** The default bindings apply when the call has no sources; unbound keys are kept. */
  lemma DefaultsOnly()
    ensures Sprintf(BindingsPrinter, FourKeys, []) == Ok("Value1 Value2 %Key3 %Key4")
  {
    assert "Value1" + (" " + ("Value2" + (" " + ((['%'] + "" + "Key3") + (" " + ((['%'] + "" + "Key4") + "")))))) == "Value1 Value2 %Key3 %Key4";
    var p := BindingsPrinter;
    assert AllSources(p, []) == [StringMap(map["Key1" := Str("Value1"), "Key2" := Str("Value2")])];
    assert MakeBindings([StringMap(map["Key1" := Str("Value1"), "Key2" := Str("Value2")])]) == Bound([map["Key1" := Str("Value1"), "Key2" := Str("Value2")]], []);
    assert Token(p) == '%';
    DefaultsOnlySegments();
  }

  lemma DefaultsOnlySegments()
    ensures FormatSegments(BindingsPrinter, [map["Key1" := Str("Value1"), "Key2" := Str("Value2")]], Lex(FourKeys, '%', 0)) == Ok("Value1" + (" " + ("Value2" + (" " + ((['%'] + "" + "Key3") + (" " + ((['%'] + "" + "Key4") + "")))))))
  {
    var p := BindingsPrinter;
    var t := '%';
    LexFourKeys(t);
    LexFourKeysFrom12(t);
    var layers := [map["Key1" := Str("Value1"), "Key2" := Str("Value2")]];
    assert FormatSegments(p, layers, Lex(FourKeys, t, 23)) == Ok("");
    assert "Key4"[3] != "Key1"[3];
    assert "Key4"[3] != "Key2"[3];
    assert "Key4" !in layers[0];
    assert GetUpTo(layers, 1, "Key4") == None;
    assert Get(layers, "Key4") == None;
    assert RenderSegment(p, layers, Placeholder(Directive("", "Key4"))) == Ok(['%'] + "" + "Key4");
    FormatStep(p, layers, Placeholder(Directive("", "Key4")), Lex(FourKeys, t, 23), ['%'] + "" + "Key4", "");
    FormatStep(p, layers, Text(" "), Lex(FourKeys, t, 18), " ", (['%'] + "" + "Key4") + "");
    assert "Key3"[3] != "Key1"[3];
    assert "Key3"[3] != "Key2"[3];
    assert "Key3" !in layers[0];
    assert GetUpTo(layers, 1, "Key3") == None;
    assert Get(layers, "Key3") == None;
    assert RenderSegment(p, layers, Placeholder(Directive("", "Key3"))) == Ok(['%'] + "" + "Key3");
    FormatStep(p, layers, Placeholder(Directive("", "Key3")), Lex(FourKeys, t, 17), ['%'] + "" + "Key3", " " + ((['%'] + "" + "Key4") + ""));
    FormatStep(p, layers, Text(" "), Lex(FourKeys, t, 12), " ", (['%'] + "" + "Key3") + (" " + ((['%'] + "" + "Key4") + "")));
    assert "Key2"[3] != "Key1"[3];
    assert "Key2" in layers[0];
    assert GetUpTo(layers, 1, "Key2") == Some(Str("Value2"));
    assert Get(layers, "Key2") == Some(Str("Value2"));
    assert RenderSegment(p, layers, Placeholder(Directive("", "Key2"))) == Ok("Value2");
    FormatStep(p, layers, Placeholder(Directive("", "Key2")), Lex(FourKeys, t, 11), "Value2", " " + ((['%'] + "" + "Key3") + (" " + ((['%'] + "" + "Key4") + ""))));
    FormatStep(p, layers, Text(" "), Lex(FourKeys, t, 6), " ", "Value2" + (" " + ((['%'] + "" + "Key3") + (" " + ((['%'] + "" + "Key4") + "")))));
    assert "Key1"[3] != "Key2"[3];
    assert "Key1" in layers[0];
    assert GetUpTo(layers, 1, "Key1") == Some(Str("Value1"));
    assert Get(layers, "Key1") == Some(Str("Value1"));
    assert RenderSegment(p, layers, Placeholder(Directive("", "Key1"))) == Ok("Value1");
    FormatStep(p, layers, Placeholder(Directive("", "Key1")), Lex(FourKeys, t, 5), "Value1", " " + ("Value2" + (" " + ((['%'] + "" + "Key3") + (" " + ((['%'] + "" + "Key4") + ""))))));
  }

  /** A source adds to the default bindings. */
  lemma DefaultsAndOneSource()
    ensures Sprintf(BindingsPrinter, FourKeys, [StringMap(map["Key3" := Str("Value3")])]) == Ok("Value1 Value2 Value3 %Key4")
  {
    assert "Value1" + (" " + ("Value2" + (" " + ("Value3" + (" " + ((['%'] + "" + "Key4") + "")))))) == "Value1 Value2 Value3 %Key4";
    var p := BindingsPrinter;
    assert AllSources(p, [StringMap(map["Key3" := Str("Value3")])]) == [StringMap(map["Key1" := Str("Value1"), "Key2" := Str("Value2")]), StringMap(map["Key3" := Str("Value3")])];
    assert MakeBindings([StringMap(map["Key1" := Str("Value1"), "Key2" := Str("Value2")]), StringMap(map["Key3" := Str("Value3")])]) == Bound([map["Key1" := Str("Value1"), "Key2" := Str("Value2")], map["Key3" := Str("Value3")]], []);
    assert Token(p) == '%';
    DefaultsAndOneSourceSegments();
  }

  lemma DefaultsAndOneSourceSegments()
    ensures FormatSegments(BindingsPrinter, [map["Key1" := Str("Value1"), "Key2" := Str("Value2")], map["Key3" := Str("Value3")]], Lex(FourKeys, '%', 0)) == Ok("Value1" + (" " + ("Value2" + (" " + ("Value3" + (" " + ((['%'] + "" + "Key4") + "")))))))
  {
    var p := BindingsPrinter;
    var t := '%';
    LexFourKeys(t);
    LexFourKeysFrom12(t);
    var layers := [map["Key1" := Str("Value1"), "Key2" := Str("Value2")], map["Key3" := Str("Value3")]];
    assert FormatSegments(p, layers, Lex(FourKeys, t, 23)) == Ok("");
    assert "Key4"[3] != "Key1"[3];
    assert "Key4"[3] != "Key2"[3];
    assert "Key4"[3] != "Key3"[3];
    assert "Key4" !in layers[0];
    assert GetUpTo(layers, 1, "Key4") == None;
    assert "Key4" !in layers[1];
    assert GetUpTo(layers, 2, "Key4") == None;
    assert Get(layers, "Key4") == None;
    assert RenderSegment(p, layers, Placeholder(Directive("", "Key4"))) == Ok(['%'] + "" + "Key4");
    FormatStep(p, layers, Placeholder(Directive("", "Key4")), Lex(FourKeys, t, 23), ['%'] + "" + "Key4", "");
    FormatStep(p, layers, Text(" "), Lex(FourKeys, t, 18), " ", (['%'] + "" + "Key4") + "");
    assert "Key3"[3] != "Key1"[3];
    assert "Key3"[3] != "Key2"[3];
    assert "Key3" !in layers[0];
    assert GetUpTo(layers, 1, "Key3") == None;
    assert "Key3" in layers[1];
    assert GetUpTo(layers, 2, "Key3") == Some(Str("Value3"));
    assert Get(layers, "Key3") == Some(Str("Value3"));
    assert RenderSegment(p, layers, Placeholder(Directive("", "Key3"))) == Ok("Value3");
    FormatStep(p, layers, Placeholder(Directive("", "Key3")), Lex(FourKeys, t, 17), "Value3", " " + ((['%'] + "" + "Key4") + ""));
    FormatStep(p, layers, Text(" "), Lex(FourKeys, t, 12), " ", "Value3" + (" " + ((['%'] + "" + "Key4") + "")));
    assert "Key2"[3] != "Key1"[3];
    assert "Key2"[3] != "Key3"[3];
    assert "Key2" in layers[0];
    assert GetUpTo(layers, 1, "Key2") == Some(Str("Value2"));
    assert "Key2" !in layers[1];
    assert GetUpTo(layers, 2, "Key2") == Some(Str("Value2"));
    assert Get(layers, "Key2") == Some(Str("Value2"));
    assert RenderSegment(p, layers, Placeholder(Directive("", "Key2"))) == Ok("Value2");
    FormatStep(p, layers, Placeholder(Directive("", "Key2")), Lex(FourKeys, t, 11), "Value2", " " + ("Value3" + (" " + ((['%'] + "" + "Key4") + ""))));
    FormatStep(p, layers, Text(" "), Lex(FourKeys, t, 6), " ", "Value2" + (" " + ("Value3" + (" " + ((['%'] + "" + "Key4") + "")))));
    assert "Key1"[3] != "Key2"[3];
    assert "Key1"[3] != "Key3"[3];
    assert "Key1" in layers[0];
    assert GetUpTo(layers, 1, "Key1") == Some(Str("Value1"));
    assert "Key1" !in layers[1];
    assert GetUpTo(layers, 2, "Key1") == Some(Str("Value1"));
    assert Get(layers, "Key1") == Some(Str("Value1"));
    assert RenderSegment(p, layers, Placeholder(Directive("", "Key1"))) == Ok("Value1");
    FormatStep(p, layers, Placeholder(Directive("", "Key1")), Lex(FourKeys, t, 5), "Value1", " " + ("Value2" + (" " + ("Value3" + (" " + ((['%'] + "" + "Key4") + ""))))));
  }

  /** Every source adds its bindings. */
  lemma DefaultsAndTwoSources()
    ensures Sprintf(BindingsPrinter, FourKeys, [StringMap(map["Key3" := Str("Value3")]), StringMap(map["Key4" := Str("Value4")])]) == Ok("Value1 Value2 Value3 Value4")
  {
    assert "Value1" + (" " + ("Value2" + (" " + ("Value3" + (" " + ("Value4" + "")))))) == "Value1 Value2 Value3 Value4";
    var p := BindingsPrinter;
    assert AllSources(p, [StringMap(map["Key3" := Str("Value3")]), StringMap(map["Key4" := Str("Value4")])]) == [StringMap(map["Key1" := Str("Value1"), "Key2" := Str("Value2")]), StringMap(map["Key3" := Str("Value3")]), StringMap(map["Key4" := Str("Value4")])];
    assert MakeBindings([StringMap(map["Key1" := Str("Value1"), "Key2" := Str("Value2")]), StringMap(map["Key3" := Str("Value3")]), StringMap(map["Key4" := Str("Value4")])]) == Bound([map["Key1" := Str("Value1"), "Key2" := Str("Value2")], map["Key3" := Str("Value3")], map["Key4" := Str("Value4")]], []);
    assert Token(p) == '%';
    DefaultsAndTwoSourcesSegments();
  }

  lemma DefaultsAndTwoSourcesSegments()
    ensures FormatSegments(BindingsPrinter, [map["Key1" := Str("Value1"), "Key2" := Str("Value2")], map["Key3" := Str("Value3")], map["Key4" := Str("Value4")]], Lex(FourKeys, '%', 0)) == Ok("Value1" + (" " + ("Value2" + (" " + ("Value3" + (" " + ("Value4" + "")))))))
  {
    var p := BindingsPrinter;
    var t := '%';
    LexFourKeys(t);
    LexFourKeysFrom12(t);
    var layers := [map["Key1" := Str("Value1"), "Key2" := Str("Value2")], map["Key3" := Str("Value3")], map["Key4" := Str("Value4")]];
    assert FormatSegments(p, layers, Lex(FourKeys, t, 23)) == Ok("");
    assert "Key4"[3] != "Key1"[3];
    assert "Key4"[3] != "Key2"[3];
    assert "Key4"[3] != "Key3"[3];
    assert "Key4" !in layers[0];
    assert GetUpTo(layers, 1, "Key4") == None;
    assert "Key4" !in layers[1];
    assert GetUpTo(layers, 2, "Key4") == None;
    assert "Key4" in layers[2];
    assert GetUpTo(layers, 3, "Key4") == Some(Str("Value4"));
    assert Get(layers, "Key4") == Some(Str("Value4"));
    assert RenderSegment(p, layers, Placeholder(Directive("", "Key4"))) == Ok("Value4");
    FormatStep(p, layers, Placeholder(Directive("", "Key4")), Lex(FourKeys, t, 23), "Value4", "");
    FormatStep(p, layers, Text(" "), Lex(FourKeys, t, 18), " ", "Value4" + "");
    assert "Key3"[3] != "Key1"[3];
    assert "Key3"[3] != "Key2"[3];
    assert "Key3"[3] != "Key4"[3];
    assert "Key3" !in layers[0];
    assert GetUpTo(layers, 1, "Key3") == None;
    assert "Key3" in layers[1];
    assert GetUpTo(layers, 2, "Key3") == Some(Str("Value3"));
    assert "Key3" !in layers[2];
    assert GetUpTo(layers, 3, "Key3") == Some(Str("Value3"));
    assert Get(layers, "Key3") == Some(Str("Value3"));
    assert RenderSegment(p, layers, Placeholder(Directive("", "Key3"))) == Ok("Value3");
    FormatStep(p, layers, Placeholder(Directive("", "Key3")), Lex(FourKeys, t, 17), "Value3", " " + ("Value4" + ""));
    FormatStep(p, layers, Text(" "), Lex(FourKeys, t, 12), " ", "Value3" + (" " + ("Value4" + "")));
    assert "Key2"[3] != "Key1"[3];
    assert "Key2"[3] != "Key3"[3];
    assert "Key2"[3] != "Key4"[3];
    assert "Key2" in layers[0];
    assert GetUpTo(layers, 1, "Key2") == Some(Str("Value2"));
    assert "Key2" !in layers[1];
    assert GetUpTo(layers, 2, "Key2") == Some(Str("Value2"));
    assert "Key2" !in layers[2];
    assert GetUpTo(layers, 3, "Key2") == Some(Str("Value2"));
    assert Get(layers, "Key2") == Some(Str("Value2"));
    assert RenderSegment(p, layers, Placeholder(Directive("", "Key2"))) == Ok("Value2");
    FormatStep(p, layers, Placeholder(Directive("", "Key2")), Lex(FourKeys, t, 11), "Value2", " " + ("Value3" + (" " + ("Value4" + ""))));
    FormatStep(p, layers, Text(" "), Lex(FourKeys, t, 6), " ", "Value2" + (" " + ("Value3" + (" " + ("Value4" + "")))));
    assert "Key1"[3] != "Key2"[3];
    assert "Key1"[3] != "Key3"[3];
    assert "Key1"[3] != "Key4"[3];
    assert "Key1" in layers[0];
    assert GetUpTo(layers, 1, "Key1") == Some(Str("Value1"));
    assert "Key1" !in layers[1];
    assert GetUpTo(layers, 2, "Key1") == Some(Str("Value1"));
    assert "Key1" !in layers[2];
    assert GetUpTo(layers, 3, "Key1") == Some(Str("Value1"));
    assert Get(layers, "Key1") == Some(Str("Value1"));
    assert RenderSegment(p, layers, Placeholder(Directive("", "Key1"))) == Ok("Value1");
    FormatStep(p, layers, Placeholder(Directive("", "Key1")), Lex(FourKeys, t, 5), "Value1", " " + ("Value2" + (" " + ("Value3" + (" " + ("Value4" + ""))))));
  }

  /** A source binding overrides a default binding. */
  lemma SourceOverridesDefault()
    ensures Sprintf(BindingsPrinter, KeyOne, [StringMap(map["Key1" := Str("Value2")])]) == Ok("Value2")
  {
    assert "Value2" + "" == "Value2";
    var p := BindingsPrinter;
    assert AllSources(p, [StringMap(map["Key1" := Str("Value2")])]) == [StringMap(map["Key1" := Str("Value1"), "Key2" := Str("Value2")]), StringMap(map["Key1" := Str("Value2")])];
    assert MakeBindings([StringMap(map["Key1" := Str("Value1"), "Key2" := Str("Value2")]), StringMap(map["Key1" := Str("Value2")])]) == Bound([map["Key1" := Str("Value1"), "Key2" := Str("Value2")], map["Key1" := Str("Value2")]], []);
    assert Token(p) == '%';
    SourceOverridesDefaultSegments();
  }

  lemma SourceOverridesDefaultSegments()
    ensures FormatSegments(BindingsPrinter, [map["Key1" := Str("Value1"), "Key2" := Str("Value2")], map["Key1" := Str("Value2")]], Lex(KeyOne, '%', 0)) == Ok("Value2" + "")
  {
    var p := BindingsPrinter;
    var t := '%';
    LexKeyOne(t);
    var layers := [map["Key1" := Str("Value1"), "Key2" := Str("Value2")], map["Key1" := Str("Value2")]];
    assert FormatSegments(p, layers, Lex(KeyOne, t, 5)) == Ok("");
    assert "Key1"[3] != "Key2"[3];
    assert "Key1" in layers[0];
    assert GetUpTo(layers, 1, "Key1") == Some(Str("Value1"));
    assert "Key1" in layers[1];
    assert GetUpTo(layers, 2, "Key1") == Some(Str("Value2"));
    assert Get(layers, "Key1") == Some(Str("Value2"));
    assert RenderSegment(p, layers, Placeholder(Directive("", "Key1"))) == Ok("Value2");
    FormatStep(p, layers, Placeholder(Directive("", "Key1")), Lex(KeyOne, t, 5), "Value2", "");
  }

  /** A later source overrides an earlier one. */
  lemma LaterSourceOverrides()
    ensures Sprintf(BindingsPrinter, KeyOne, [StringMap(map["Key1" := Str("Value2")]), StringMap(map["Key1" := Str("Value3")])]) == Ok("Value3")
  {
    assert "Value3" + "" == "Value3";
    var p := BindingsPrinter;
    assert AllSources(p, [StringMap(map["Key1" := Str("Value2")]), StringMap(map["Key1" := Str("Value3")])]) == [StringMap(map["Key1" := Str("Value1"), "Key2" := Str("Value2")]), StringMap(map["Key1" := Str("Value2")]), StringMap(map["Key1" := Str("Value3")])];
    assert MakeBindings([StringMap(map["Key1" := Str("Value1"), "Key2" := Str("Value2")]), StringMap(map["Key1" := Str("Value2")]), StringMap(map["Key1" := Str("Value3")])]) == Bound([map["Key1" := Str("Value1"), "Key2" := Str("Value2")], map["Key1" := Str("Value2")], map["Key1" := Str("Value3")]], []);
    assert Token(p) == '%';
    LaterSourceOverridesSegments();
  }

  lemma LaterSourceOverridesSegments()
    ensures FormatSegments(BindingsPrinter, [map["Key1" := Str("Value1"), "Key2" := Str("Value2")], map["Key1" := Str("Value2")], map["Key1" := Str("Value3")]], Lex(KeyOne, '%', 0)) == Ok("Value3" + "")
  {
    var p := BindingsPrinter;
    var t := '%';
    LexKeyOne(t);
    var layers := [map["Key1" := Str("Value1"), "Key2" := Str("Value2")], map["Key1" := Str("Value2")], map["Key1" := Str("Value3")]];
    assert FormatSegments(p, layers, Lex(KeyOne, t, 5)) == Ok("");
    assert "Key1"[3] != "Key2"[3];
    assert "Key1" in layers[0];
    assert GetUpTo(layers, 1, "Key1") == Some(Str("Value1"));
    assert "Key1" in layers[1];
    assert GetUpTo(layers, 2, "Key1") == Some(Str("Value2"));
    assert "Key1" in layers[2];
    assert GetUpTo(layers, 3, "Key1") == Some(Str("Value3"));
    assert Get(layers, "Key1") == Some(Str("Value3"));
    assert RenderSegment(p, layers, Placeholder(Directive("", "Key1"))) == Ok("Value3");
    FormatStep(p, layers, Placeholder(Directive("", "Key1")), Lex(KeyOne, t, 5), "Value3", "");
  }

  /** An untyped nil source binds nothing: the default binding is printed. */
  lemma NilSourceSkipped()
    ensures Sprintf(BindingsPrinter, KeyOne, [NilSource]) == Ok("Value1")
  {
    assert "Value1" + "" == "Value1";
    var p := BindingsPrinter;
    assert AllSources(p, [NilSource]) == [StringMap(map["Key1" := Str("Value1"), "Key2" := Str("Value2")]), NilSource];
    assert MakeBindings([StringMap(map["Key1" := Str("Value1"), "Key2" := Str("Value2")]), NilSource]) == Bound([map["Key1" := Str("Value1"), "Key2" := Str("Value2")], map[]], []);
    assert Token(p) == '%';
    NilSourceSkippedSegments();
  }

  lemma NilSourceSkippedSegments()
    ensures FormatSegments(BindingsPrinter, [map["Key1" := Str("Value1"), "Key2" := Str("Value2")], map[]], Lex(KeyOne, '%', 0)) == Ok("Value1" + "")
  {
    var p := BindingsPrinter;
    var t := '%';
    LexKeyOne(t);
    var layers: seq<map<string, Value>> := [map["Key1" := Str("Value1"), "Key2" := Str("Value2")], map[]];
    assert FormatSegments(p, layers, Lex(KeyOne, t, 5)) == Ok("");
    assert "Key1"[3] != "Key2"[3];
    assert "Key1" in layers[0];
    assert "Key1" !in layers[1];
    assert GetUpTo(layers, 1, "Key1") == Some(Str("Value1"));
    assert GetUpTo(layers, 2, "Key1") == Some(Str("Value1"));
    assert Get(layers, "Key1") == Some(Str("Value1"));
    assert RenderSegment(p, layers, Placeholder(Directive("", "Key1"))) == Ok("Value1");
    FormatStep(p, layers, Placeholder(Directive("", "Key1")), Lex(KeyOne, t, 5), "Value1", "");
  }

  /** A key bound to nil prints nothing when errors are suppressed. */
  lemma NilBindingPrintsNothing()
    ensures Sprintf(BindingsPrinter, KeyThree, [StringMap(map["Key3" := Nil])]) == Ok("")
  {
    var p := BindingsPrinter;
    assert AllSources(p, [StringMap(map["Key3" := Nil])]) == [StringMap(map["Key1" := Str("Value1"), "Key2" := Str("Value2")]), StringMap(map["Key3" := Nil])];
    assert MakeBindings([StringMap(map["Key1" := Str("Value1"), "Key2" := Str("Value2")]), StringMap(map["Key3" := Nil])]) == Bound([map["Key1" := Str("Value1"), "Key2" := Str("Value2")], map["Key3" := Nil]], []);
    assert Token(p) == '%';
    NilBindingPrintsNothingSegments();
  }

  lemma NilBindingPrintsNothingSegments()
    ensures FormatSegments(BindingsPrinter, [map["Key1" := Str("Value1"), "Key2" := Str("Value2")], map["Key3" := Nil]], Lex(KeyThree, '%', 0)) == Ok("")
  {
    var p := BindingsPrinter;
    var t := '%';
    LexKeyThree(t);
    var layers := [map["Key1" := Str("Value1"), "Key2" := Str("Value2")], map["Key3" := Nil]];
    assert FormatSegments(p, layers, Lex(KeyThree, t, 5)) == Ok("");
    assert "Key3"[3] != "Key1"[3];
    assert "Key3"[3] != "Key2"[3];
    assert "Key3" !in layers[0];
    assert GetUpTo(layers, 1, "Key3") == None;
    assert "Key3" in layers[1];
    assert GetUpTo(layers, 2, "Key3") == Some(Nil);
    assert Get(layers, "Key3") == Some(Nil);
    assert RenderSegment(p, layers, Placeholder(Directive("", "Key3"))) == Err(NilValue);
    SkipStep(p, layers, Placeholder(Directive("", "Key3")), Lex(KeyThree, t, 5), "");
  }

  /** A map whose keys are not strings binds nothing when errors are suppressed. */
  lemma OtherKeysSkipped()
    ensures Sprintf(BindingsPrinter, KeyThree, [OtherKeyMap]) == Ok("%Key3")
  {
    assert (['%'] + "" + "Key3") + "" == "%Key3";
    var p := BindingsPrinter;
    assert AllSources(p, [OtherKeyMap]) == [StringMap(map["Key1" := Str("Value1"), "Key2" := Str("Value2")]), OtherKeyMap];
    assert MakeBindings([StringMap(map["Key1" := Str("Value1"), "Key2" := Str("Value2")]), OtherKeyMap]) == Bound([map["Key1" := Str("Value1"), "Key2" := Str("Value2")]], [NonStringKeys]);
    assert Token(p) == '%';
    OtherKeysSkippedSegments();
  }

  lemma OtherKeysSkippedSegments()
    ensures FormatSegments(BindingsPrinter, [map["Key1" := Str("Value1"), "Key2" := Str("Value2")]], Lex(KeyThree, '%', 0)) == Ok((['%'] + "" + "Key3") + "")
  {
    var p := BindingsPrinter;
    var t := '%';
    LexKeyThree(t);
    var layers := [map["Key1" := Str("Value1"), "Key2" := Str("Value2")]];
    assert FormatSegments(p, layers, Lex(KeyThree, t, 5)) == Ok("");
    assert "Key3"[3] != "Key1"[3];
    assert "Key3"[3] != "Key2"[3];
    assert "Key3" !in layers[0];
    assert GetUpTo(layers, 1, "Key3") == None;
    assert Get(layers, "Key3") == None;
    assert RenderSegment(p, layers, Placeholder(Directive("", "Key3"))) == Ok(['%'] + "" + "Key3");
    FormatStep(p, layers, Placeholder(Directive("", "Key3")), Lex(KeyThree, t, 5), ['%'] + "" + "Key3", "");
  }

  /** A value that is no source is skipped when errors are suppressed. */
  lemma NonSourceSkipped()
    ensures Sprintf(BindingsPrinter, KeyOne, [NotBindable(Int(1))]) == Ok("Value1")
  {
    assert "Value1" + "" == "Value1";
    var p := BindingsPrinter;
    assert AllSources(p, [NotBindable(Int(1))]) == [StringMap(map["Key1" := Str("Value1"), "Key2" := Str("Value2")]), NotBindable(Int(1))];
    assert MakeBindings([StringMap(map["Key1" := Str("Value1"), "Key2" := Str("Value2")]), NotBindable(Int(1))]) == Bound([map["Key1" := Str("Value1"), "Key2" := Str("Value2")]], [InvalidSource]);
    assert Token(p) == '%';
    NonSourceSkippedSegments();
  }

  lemma NonSourceSkippedSegments()
    ensures FormatSegments(BindingsPrinter, [map["Key1" := Str("Value1"), "Key2" := Str("Value2")]], Lex(KeyOne, '%', 0)) == Ok("Value1" + "")
  {
    var p := BindingsPrinter;
    var t := '%';
    LexKeyOne(t);
    var layers := [map["Key1" := Str("Value1"), "Key2" := Str("Value2")]];
    assert FormatSegments(p, layers, Lex(KeyOne, t, 5)) == Ok("");
    assert "Key1"[3] != "Key2"[3];
    assert "Key1" in layers[0];
    assert GetUpTo(layers, 1, "Key1") == Some(Str("Value1"));
    assert Get(layers, "Key1") == Some(Str("Value1"));
    assert RenderSegment(p, layers, Placeholder(Directive("", "Key1"))) == Ok("Value1");
    FormatStep(p, layers, Placeholder(Directive("", "Key1")), Lex(KeyOne, t, 5), "Value1", "");
  }

  /** A pointer to a struct binds the struct's fields. */
  lemma StructPointerBinds()
    ensures Sprintf(BindingsPrinter, KeyOne, [Pointer(Struct(map["Key1" := Str("Value3")]))]) == Ok("Value3")
  {
    assert "Value3" + "" == "Value3";
    var p := BindingsPrinter;
    assert AllSources(p, [Pointer(Struct(map["Key1" := Str("Value3")]))]) == [StringMap(map["Key1" := Str("Value1"), "Key2" := Str("Value2")]), Pointer(Struct(map["Key1" := Str("Value3")]))];
    assert MakeBindings([StringMap(map["Key1" := Str("Value1"), "Key2" := Str("Value2")]), Pointer(Struct(map["Key1" := Str("Value3")]))]) == Bound([map["Key1" := Str("Value1"), "Key2" := Str("Value2")], map["Key1" := Str("Value3")]], []);
    assert Token(p) == '%';
    StructPointerBindsSegments();
  }

  lemma StructPointerBindsSegments()
    ensures FormatSegments(BindingsPrinter, [map["Key1" := Str("Value1"), "Key2" := Str("Value2")], map["Key1" := Str("Value3")]], Lex(KeyOne, '%', 0)) == Ok("Value3" + "")
  {
    var p := BindingsPrinter;
    var t := '%';
    LexKeyOne(t);
    var layers := [map["Key1" := Str("Value1"), "Key2" := Str("Value2")], map["Key1" := Str("Value3")]];
    assert FormatSegments(p, layers, Lex(KeyOne, t, 5)) == Ok("");
    assert "Key1"[3] != "Key2"[3];
    assert "Key1" in layers[0];
    assert GetUpTo(layers, 1, "Key1") == Some(Str("Value1"));
    assert "Key1" in layers[1];
    assert GetUpTo(layers, 2, "Key1") == Some(Str("Value3"));
    assert Get(layers, "Key1") == Some(Str("Value3"));
    assert RenderSegment(p, layers, Placeholder(Directive("", "Key1"))) == Ok("Value3");
    FormatStep(p, layers, Placeholder(Directive("", "Key1")), Lex(KeyOne, t, 5), "Value3", "");
  }

  /** A nil struct pointer is skipped when errors are suppressed. */
  lemma NilPointerSkipped()
    ensures Sprintf(BindingsPrinter, KeyOne, [NilPointer]) == Ok("Value1")
  {
    assert "Value1" + "" == "Value1";
    var p := BindingsPrinter;
    assert AllSources(p, [NilPointer]) == [StringMap(map["Key1" := Str("Value1"), "Key2" := Str("Value2")]), NilPointer];
    assert MakeBindings([StringMap(map["Key1" := Str("Value1"), "Key2" := Str("Value2")]), NilPointer]) == Bound([map["Key1" := Str("Value1"), "Key2" := Str("Value2")]], [InvalidSource]);
    assert Token(p) == '%';
    NilPointerSkippedSegments();
  }

  lemma NilPointerSkippedSegments()
    ensures FormatSegments(BindingsPrinter, [map["Key1" := Str("Value1"), "Key2" := Str("Value2")]], Lex(KeyOne, '%', 0)) == Ok("Value1" + "")
  {
    var p := BindingsPrinter;
    var t := '%';
    LexKeyOne(t);
    var layers := [map["Key1" := Str("Value1"), "Key2" := Str("Value2")]];
    assert FormatSegments(p, layers, Lex(KeyOne, t, 5)) == Ok("");
    assert "Key1"[3] != "Key2"[3];
    assert "Key1" in layers[0];
    assert GetUpTo(layers, 1, "Key1") == Some(Str("Value1"));
    assert Get(layers, "Key1") == Some(Str("Value1"));
    assert RenderSegment(p, layers, Placeholder(Directive("", "Key1"))) == Ok("Value1");
    FormatStep(p, layers, Placeholder(Directive("", "Key1")), Lex(KeyOne, t, 5), "Value1", "");
  }

  /** In strict mode a value that is no source is an error. */
  lemma StrictNonSource()
    ensures Sprintf(ZeroPrinter, KeyOne, [NotBindable(Int(1))]) == Err(InvalidSource)
  {
    var p := ZeroPrinter;
    assert AllSources(p, [NotBindable(Int(1))]) == [NotBindable(Int(1))];
    assert MakeBindings([NotBindable(Int(1))]) == Bound([], [InvalidSource]);
  }

  /** In strict mode a nil struct pointer is an error. */
  lemma StrictNilPointer()
    ensures Sprintf(ZeroPrinter, KeyOne, [NilPointer]) == Err(InvalidSource)
  {
    var p := ZeroPrinter;
    assert AllSources(p, [NilPointer]) == [NilPointer];
    assert MakeBindings([NilPointer]) == Bound([], [InvalidSource]);
  }

  /** In strict mode a key bound to nil is an error. */
  lemma StrictNilBinding()
    ensures Sprintf(ZeroPrinter, KeyOne, [StringMap(map["Key1" := Nil])]) == Err(NilValue)
  {
    var p := ZeroPrinter;
    assert AllSources(p, [StringMap(map["Key1" := Nil])]) == [StringMap(map["Key1" := Nil])];
    assert MakeBindings([StringMap(map["Key1" := Nil])]) == Bound([map["Key1" := Nil]], []);
    var t := Token(p);
    LexKeyOne(t);
    var layers := [map["Key1" := Nil]];
    assert FormatSegments(p, layers, Lex(KeyOne, t, 5)) == Ok("");
    assert RenderSegment(p, layers, Placeholder(Directive("", "Key1"))) == Err(NilValue);
    FailStep(p, layers, Placeholder(Directive("", "Key1")), Lex(KeyOne, t, 5), NilValue);
  }

  /** In strict mode a map with non-string keys is an error, even when the template has no key. */
  lemma StrictOtherKeys()
    ensures Sprintf(ZeroPrinter, DigitKey, [OtherKeyMap]) == Err(NonStringKeys)
  {
    var p := ZeroPrinter;
    assert AllSources(p, [OtherKeyMap]) == [OtherKeyMap];
    assert MakeBindings([OtherKeyMap]) == Bound([], [NonStringKeys]);
  }

  /** A map source binds its entries. */
  lemma MapBindsEntries()
    ensures MakeBindings([StringMap(map["Key1" := Str("Value1"), "Key2" := Str("Value2")])]).errors == []
    ensures Get(MakeBindings([StringMap(map["Key1" := Str("Value1"), "Key2" := Str("Value2")])]).layers, "Key1") == Some(Str("Value1"))
    ensures Rendering.Render(Str("Value1"), None) == Ok("Value1")
    ensures Get(MakeBindings([StringMap(map["Key1" := Str("Value1"), "Key2" := Str("Value2")])]).layers, "Key2") == Some(Str("Value2"))
    ensures Rendering.Render(Str("Value2"), None) == Ok("Value2")
  {
    assert MakeBindings([StringMap(map["Key1" := Str("Value1"), "Key2" := Str("Value2")])]) == Bound([map["Key1" := Str("Value1"), "Key2" := Str("Value2")]], []);
  }

  /** A struct source binds its fields by name. */
  lemma StructBindsFields()
    ensures MakeBindings([Struct(map["Key1" := Str("Value1"), "Key2" := Str("Value2")])]).errors == []
    ensures Get(MakeBindings([Struct(map["Key1" := Str("Value1"), "Key2" := Str("Value2")])]).layers, "Key1") == Some(Str("Value1"))
    ensures Rendering.Render(Str("Value1"), None) == Ok("Value1")
    ensures Get(MakeBindings([Struct(map["Key1" := Str("Value1"), "Key2" := Str("Value2")])]).layers, "Key2") == Some(Str("Value2"))
    ensures Rendering.Render(Str("Value2"), None) == Ok("Value2")
  {
    assert MakeBindings([Struct(map["Key1" := Str("Value1"), "Key2" := Str("Value2")])]) == Bound([map["Key1" := Str("Value1"), "Key2" := Str("Value2")]], []);
  }

  /** The embedded struct's field is unexported, so the struct binds only
      its own exported fields; the embedded struct's Key3 is not promoted. */
  lemma EmbeddedStructField()
    ensures MakeBindings([Struct(map["Key1" := Str("Value1"), "Key2" := Str("Value2")])]).errors == []
    ensures Get(MakeBindings([Struct(map["Key1" := Str("Value1"), "Key2" := Str("Value2")])]).layers, "Key1") == Some(Str("Value1"))
    ensures Rendering.Render(Str("Value1"), None) == Ok("Value1")
    ensures Get(MakeBindings([Struct(map["Key1" := Str("Value1"), "Key2" := Str("Value2")])]).layers, "Key2") == Some(Str("Value2"))
    ensures Rendering.Render(Str("Value2"), None) == Ok("Value2")
    ensures Get(MakeBindings([Struct(map["Key1" := Str("Value1"), "Key2" := Str("Value2")])]).layers, "Key3") == None
  {
    assert MakeBindings([Struct(map["Key1" := Str("Value1"), "Key2" := Str("Value2")])]) == Bound([map["Key1" := Str("Value1"), "Key2" := Str("Value2")]], []);
  }

  /** A field holding a struct is bound to a value with no text form. */
  lemma ChildStructField()
    ensures MakeBindings([Struct(map["Key1" := Str("Value1"), "Key2" := Str("Value2"), "Key3" := Unsupported])]).errors == []
    ensures Get(MakeBindings([Struct(map["Key1" := Str("Value1"), "Key2" := Str("Value2"), "Key3" := Unsupported])]).layers, "Key1") == Some(Str("Value1"))
    ensures Rendering.Render(Str("Value1"), None) == Ok("Value1")
    ensures Get(MakeBindings([Struct(map["Key1" := Str("Value1"), "Key2" := Str("Value2"), "Key3" := Unsupported])]).layers, "Key2") == Some(Str("Value2"))
    ensures Rendering.Render(Str("Value2"), None) == Ok("Value2")
    ensures Get(MakeBindings([Struct(map["Key1" := Str("Value1"), "Key2" := Str("Value2"), "Key3" := Unsupported])]).layers, "Key3") == Some(Unsupported)
    ensures Rendering.Render(Unsupported, None) == Err(UnsupportedValue)
  {
    assert MakeBindings([Struct(map["Key1" := Str("Value1"), "Key2" := Str("Value2"), "Key3" := Unsupported])]) == Bound([map["Key1" := Str("Value1"), "Key2" := Str("Value2"), "Key3" := Unsupported]], []);
  }
}
