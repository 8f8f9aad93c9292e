/** The printer: its configuration, the key-not-found strategies, the error
    policy, and Sprintf, which scans a template and replaces each directive
    by the rendering of its bound value. */
module Formatter {
  import opened Values
  import opened Grammar
  import opened Lexer
  import opened Bindings
  import opened Rendering

  /** What a custom key-not-found hook does with a directive it is handed:
      write some text, have a substitute value printed with the directive's
      modifiers, or report an error. */
  datatype NotFoundAction = Emit(text: string) | Substitute(v: Value) | Fail

  /** The strategy for a key no source binds. */
  datatype KeyNotFound =
    | KeepKey                      // write the directive's own text again
    | ClearKey                     // write nothing
    | DefaultValue(v: Value)       // print v as if the key were bound to it
    | CustomKeyNotFound(hook: (string, string) -> NotFoundAction)  // called with prefix and key

  /** A custom value printer: called with the raw prefix, the key and the
      bound value, it gives the text to write, or None for an error. */
  type PrintHook = (string, string, Value) -> Option<string>

  /** The printer configuration. Its zero value (token '\0', nothing set) is
      a valid printer: the token defaults to '%', a missing strategy keeps
      the key, and a missing printer is the built-in one. */
  datatype Printer = Printer(
    keyToken: char,
    defaultBindings: Option<Source>,
    keyNotFound: Option<KeyNotFound>,
    printValue: Option<PrintHook>,
    suppressErrors: bool)

  /** The zero-valued printer. */
  const ZeroPrinter := Printer('\0', None, None, None, false)

  /** The printer the package-level Sprintf uses: it suppresses errors. */
  const PackagePrinter := Printer('\0', None, None, None, true)

  function Token(p: Printer): char {
    if p.keyToken == '\0' then '%' else p.keyToken
  }

  /** The value printer in effect. */
  function PrintValue(p: Printer, d: Directive, v: Value): Result<string>
  {
    match p.printValue
    case Some(hook) => (match hook(d.prefix, d.key, v) case Some(t) => Ok(t) case None => Err(PrintFailed))
    case None => DefaultPrint(d.prefix, v)
  }

  /** What the strategy in effect writes for a directive whose key no source
      binds. A default value is printed as a bound value would be, through
      the value printer in effect; a custom hook's substitute value goes
      through the built-in value printer it is handed. */
  function OnKeyNotFound(p: Printer, d: Directive): Result<string>
  {
    match p.keyNotFound.GetOr(KeepKey)
    case KeepKey => Ok(SourceText(Placeholder(d), Token(p)))
    case ClearKey => Ok("")
    case DefaultValue(v) => PrintValue(p, d, v)
    case CustomKeyNotFound(hook) =>
      match hook(d.prefix, d.key)
      case Emit(t) => Ok(t)
      case Substitute(v) => DefaultPrint(d.prefix, v)
      case Fail => Err(StrategyFailed)
  }

  /** The text one segment of the template contributes. */
  function RenderSegment(p: Printer, layers: seq<map<string, Value>>, seg: Segment): Result<string>
  {
    match seg
    case Text(t) => Ok(t)
    case Escape => Ok([Token(p)])
    case Placeholder(d) =>
      match Get(layers, d.key)
      case Some(v) => PrintValue(p, d, v)
      case None => OnKeyNotFound(p, d)
  }

  /** A bound key's directive prints as the value printer prints its value. */
  lemma BoundStep(p: Printer, layers: seq<map<string, Value>>, d: Directive, v: Value, text: string)
    requires Get(layers, d.key) == Some(v) && PrintValue(p, d, v) == Ok(text)
    ensures RenderSegment(p, layers, Placeholder(d)) == Ok(text)
  {
  }

  /** The segments' texts in order. In strict mode the first error aborts;
      with error suppression a failing segment contributes nothing. */
  function FormatSegments(p: Printer, layers: seq<map<string, Value>>, segs: seq<Segment>): Result<string>
  {
    if segs == [] then Ok("")
    else
      var head := RenderSegment(p, layers, segs[0]);
      if head.Err? && !p.suppressErrors then Err(head.error)
      else
        var tail :- FormatSegments(p, layers, segs[1..]);
        Ok((if head.Ok? then head.value else "") + tail)
  }

  /** The sources in effect, lowest precedence first: the printer's default
      bindings, then the call's own sources in order. */
  function AllSources(p: Printer, sources: seq<Source>): seq<Source>
  {
    (match p.defaultBindings case Some(d) => [d] case None => []) + sources
  }

  /** Printer.Sprintf. The sources are bound before the template is read, so
      in strict mode an invalid source aborts the call whatever the template. */
  function Sprintf(p: Printer, template: string, sources: seq<Source>): Result<string>
  {
    var b := MakeBindings(AllSources(p, sources));
    if b.errors != [] && !p.suppressErrors then Err(b.errors[0])
    else FormatSegments(p, b.layers, Lex(template, Token(p), 0))
  }

  /** The package-level Sprintf. */
  function PackageSprintf(template: string, sources: seq<Source>): Result<string>
  {
    Sprintf(PackagePrinter, template, sources)
  }

  // The error policy.

  /** With error suppression formatting never fails. */
  lemma {:induction false} SuppressedSegmentsSucceed(p: Printer, layers: seq<map<string, Value>>, segs: seq<Segment>)
    requires p.suppressErrors
    ensures FormatSegments(p, layers, segs).Ok?
  {
    if segs != [] {
      SuppressedSegmentsSucceed(p, layers, segs[1..]);
    }
  }

  /** A segment renders alike whether or not errors are suppressed. */
  lemma SegmentIgnoresPolicy(p: Printer, layers: seq<map<string, Value>>, seg: Segment, suppress: bool)
    ensures RenderSegment(p.(suppressErrors := suppress), layers, seg) == RenderSegment(p, layers, seg)
  {
  }

  /** In strict mode formatting succeeds exactly when every segment renders,
      and then gives what the suppressing printer gives; when it fails, it
      reports the error of the first segment that failed. */
  lemma {:induction false} StrictSegments(p: Printer, layers: seq<map<string, Value>>, segs: seq<Segment>)
    requires !p.suppressErrors
    ensures FormatSegments(p, layers, segs).Ok? <==> forall k | 0 <= k < |segs| :: RenderSegment(p, layers, segs[k]).Ok?
    ensures FormatSegments(p, layers, segs).Ok? ==>
              FormatSegments(p, layers, segs) == FormatSegments(p.(suppressErrors := true), layers, segs)
    ensures FormatSegments(p, layers, segs).Err? ==>
              exists k | 0 <= k < |segs| ::
                && RenderSegment(p, layers, segs[k]) == Err(FormatSegments(p, layers, segs).error)
                && forall j | 0 <= j < k :: RenderSegment(p, layers, segs[j]).Ok?
  {
    if segs != [] {
      StrictSegments(p, layers, segs[1..]);
      SegmentIgnoresPolicy(p, layers, segs[0], true);
      assert forall k | 1 <= k < |segs| :: segs[k] == segs[1..][k - 1];
      var r := FormatSegments(p, layers, segs);
      if r.Err? && RenderSegment(p, layers, segs[0]).Ok? {
        var k' :| 0 <= k' < |segs[1..]| &&
                  RenderSegment(p, layers, segs[1..][k']) == Err(FormatSegments(p, layers, segs[1..]).error) &&
                  forall j | 0 <= j < k' :: RenderSegment(p, layers, segs[1..][j]).Ok?;
        assert RenderSegment(p, layers, segs[k' + 1]) == Err(r.error);
      }
    }
  }

  /** A segment's text comes before the output of the segments after it;
      a failing segment aborts in strict mode and is dropped otherwise. */
  lemma FormatSegmentsCons(p: Printer, layers: seq<map<string, Value>>, seg: Segment, rest: seq<Segment>)
    ensures var head := RenderSegment(p, layers, seg);
            var tail := FormatSegments(p, layers, rest);
            FormatSegments(p, layers, [seg] + rest) ==
              if head.Err? && !p.suppressErrors then Err(head.error)
              else if tail.Err? then tail
              else Ok((if head.Ok? then head.value else "") + tail.value)
  {
    assert ([seg] + rest)[1..] == rest;
  }

  // The same steps with the segment's text or error known, as a golden
  // case walks a template's segments from the last to the first.

  /** A segment that renders puts its text before the output of the rest. */
  lemma FormatStep(p: Printer, layers: seq<map<string, Value>>, seg: Segment, rest: seq<Segment>, head: string, tail: string)
    requires RenderSegment(p, layers, seg) == Ok(head)
    requires FormatSegments(p, layers, rest) == Ok(tail)
    ensures FormatSegments(p, layers, [seg] + rest) == Ok(head + tail)
  {
    FormatSegmentsCons(p, layers, seg, rest);
  }

  /** With error suppression a failing segment contributes nothing. */
  lemma SkipStep(p: Printer, layers: seq<map<string, Value>>, seg: Segment, rest: seq<Segment>, tail: string)
    requires p.suppressErrors && RenderSegment(p, layers, seg).Err?
    requires FormatSegments(p, layers, rest) == Ok(tail)
    ensures FormatSegments(p, layers, [seg] + rest) == Ok(tail)
  {
    FormatSegmentsCons(p, layers, seg, rest);
    assert "" + tail == tail;
  }

  /** In strict mode a failing segment's error is the result. */
  lemma FailStep(p: Printer, layers: seq<map<string, Value>>, seg: Segment, rest: seq<Segment>, e: Error)
    requires !p.suppressErrors && RenderSegment(p, layers, seg) == Err(e)
    ensures FormatSegments(p, layers, [seg] + rest) == Err(e)
  {
    FormatSegmentsCons(p, layers, seg, rest);
  }

  /** An error further on is the result when this segment renders. */
  lemma PropagateStep(p: Printer, layers: seq<map<string, Value>>, seg: Segment, rest: seq<Segment>, e: Error)
    requires RenderSegment(p, layers, seg).Ok?
    requires FormatSegments(p, layers, rest) == Err(e)
    ensures FormatSegments(p, layers, [seg] + rest) == Err(e)
  {
    FormatSegmentsCons(p, layers, seg, rest);
  }

  /** The output of a concatenation of segment lists is the two outputs
      concatenated, and the first error met if there is one. */
  lemma {:induction false} FormatSegmentsConcat(p: Printer, layers: seq<map<string, Value>>, a: seq<Segment>, b: seq<Segment>)
    ensures var fa, fb := FormatSegments(p, layers, a), FormatSegments(p, layers, b);
            FormatSegments(p, layers, a + b) ==
              if fa.Err? then fa else if fb.Err? then fb else Ok(fa.value + fb.value)
  {
    if a == [] {
      assert a + b == b;
      var fb := FormatSegments(p, layers, b);
      if fb.Ok? {
        assert "" + fb.value == fb.value;
      }
    } else {
      assert (a + b)[0] == a[0];
      assert (a + b)[1..] == a[1..] + b;
      FormatSegmentsConcat(p, layers, a[1..], b);
      var head := RenderSegment(p, layers, a[0]);
      var h := if head.Ok? then head.value else "";
      var ta, fb := FormatSegments(p, layers, a[1..]), FormatSegments(p, layers, b);
      if ta.Ok? && fb.Ok? {
        assert h + (ta.value + fb.value) == (h + ta.value) + fb.value;
      }
    }
  }

  /** The package-level Sprintf, and every printer that suppresses errors,
      always produces a text. */
  lemma SuppressedSprintfSucceeds(p: Printer, template: string, sources: seq<Source>)
    requires p.suppressErrors
    ensures Sprintf(p, template, sources).Ok?
  {
    var b := MakeBindings(AllSources(p, sources));
    SuppressedSegmentsSucceed(p, b.layers, Lex(template, Token(p), 0));
  }

  /** A strict printer succeeds exactly when every source is bindable and
      every segment of the template renders, and then prints what the
      suppressing printer prints. */
  lemma StrictSprintf(p: Printer, template: string, sources: seq<Source>)
    requires !p.suppressErrors
    ensures var all := AllSources(p, sources);
            var segs := Scan(template, Token(p), 0);
            Sprintf(p, template, sources).Ok? <==>
              && (forall k | 0 <= k < |all| :: Layer(all[k]).Ok?)
              && (forall k | 0 <= k < |segs| :: RenderSegment(p, MakeBindings(all).layers, segs[k]).Ok?)
    ensures Sprintf(p, template, sources).Ok? ==>
              Sprintf(p, template, sources) == Sprintf(p.(suppressErrors := true), template, sources)
  {
    var all := AllSources(p, sources);
    var b := MakeBindings(all);
    LexIsScan(template, Token(p), 0);
    NoErrorsIffAllValid(all);
    StrictSegments(p, b.layers, Scan(template, Token(p), 0));
  }

  /** A strict printer rejects an invalid source even when the template
      never looks anything up. */
  lemma StrictRejectsInvalidSource(p: Printer, template: string, sources: seq<Source>, k: nat)
    requires !p.suppressErrors && k < |sources| && Layer(sources[k]).Err?
    ensures Sprintf(p, template, sources).Err?
  {
    var all := AllSources(p, sources);
    var d := |all| - |sources|;
    assert all[d + k] == sources[k];
    NoErrorsIffAllValid(all);
  }

  /** With error suppression an invalid source is skipped as if it had not
      been passed. */
  lemma InvalidSourceSkipped(p: Printer, template: string, xs: seq<Source>, bad: Source, ys: seq<Source>)
    requires p.suppressErrors && Layer(bad).Err?
    ensures Sprintf(p, template, xs + [bad] + ys) == Sprintf(p, template, xs + ys)
  {
    var pre := match p.defaultBindings case Some(d) => [d] case None => [];
    assert AllSources(p, xs + [bad] + ys) == (pre + xs) + ([bad] + ys);
    assert AllSources(p, xs + ys) == (pre + xs) + ys;
    MakeBindingsConcat(pre + xs, [bad] + ys);
    MakeBindingsConcat([bad], ys);
    MakeBindingsConcat(pre + xs, ys);
    MakeBindingsOne(bad);
  }

  /** Formatting reads the layers only through lookups: layers that answer
      every lookup alike give the same output. */
  lemma {:induction false} SameLookupsSameOutput(p: Printer, l1: seq<map<string, Value>>, l2: seq<map<string, Value>>, segs: seq<Segment>)
    requires forall key :: Get(l1, key) == Get(l2, key)
    ensures FormatSegments(p, l1, segs) == FormatSegments(p, l2, segs)
  {
    if segs != [] {
      SameLookupsSameOutput(p, l1, l2, segs[1..]);
      if segs[0].Placeholder? {
        SegmentByLookup(p, l1, l2, segs[0], Get(l1, segs[0].d.key));
      } else {
        SegmentByLookup(p, l1, l2, segs[0], None);
      }
    }
  }

  lemma SegmentByLookup(p: Printer, l1: seq<map<string, Value>>, l2: seq<map<string, Value>>, seg: Segment, found: Option<Value>)
    requires seg.Placeholder? ==> Get(l1, seg.d.key) == found && Get(l2, seg.d.key) == found
    ensures RenderSegment(p, l1, seg) == RenderSegment(p, l2, seg)
  {
  }

  /** The untyped nil binds nothing and is no error: passing it changes
      nothing, with or without error suppression. */
  lemma NilSourceBindsNothing(p: Printer, template: string, xs: seq<Source>, ys: seq<Source>)
    ensures Sprintf(p, template, xs + [NilSource] + ys) == Sprintf(p, template, xs + ys)
  {
    var pre := match p.defaultBindings case Some(d) => [d] case None => [];
    assert AllSources(p, xs + [NilSource] + ys) == (pre + xs) + ([NilSource] + ys);
    assert AllSources(p, xs + ys) == (pre + xs) + ys;
    MakeBindingsConcat(pre + xs, [NilSource] + ys);
    MakeBindingsConcat([NilSource], ys);
    MakeBindingsConcat(pre + xs, ys);
    MakeBindingsOne(NilSource);
    var l1, l2 := MakeBindings(pre + xs).layers, MakeBindings(ys).layers;
    assert MakeBindings(AllSources(p, xs + [NilSource] + ys)).layers == l1 + [map[]] + l2;
    forall key
      ensures Get(l1 + [map[]] + l2, key) == Get(l1 + l2, key)
    {
      EmptyLayerGet(l1, l2, key);
    }
    SameLookupsSameOutput(p, l1 + [map[]] + l2, l1 + l2, Lex(template, Token(p), 0));
  }

  // Binding precedence.

  /** A key the call's sources define takes its value from them; otherwise
      it falls back to the printer's default bindings. */
  lemma DefaultsHaveLowestPrecedence(p: Printer, sources: seq<Source>, key: string)
    requires p.defaultBindings.Some? && Layer(p.defaultBindings.value).Ok?
    ensures var m := Layer(p.defaultBindings.value).value;
            var own := Get(MakeBindings(sources).layers, key);
            Get(MakeBindings(AllSources(p, sources)).layers, key) ==
              if own.Some? then own else if key in m then Some(m[key]) else None
  {
    var d := p.defaultBindings.value;
    var m := Layer(d).value;
    MakeBindingsConcat([d], sources);
    MakeBindingsOne(d);
    var own := MakeBindings(sources).layers;
    assert MakeBindings(AllSources(p, sources)).layers == [m] + own;
    GetUpToPrepend(m, own, |own|, key);
  }

  lemma {:induction false} GetUpToPrepend(m: map<string, Value>, layers: seq<map<string, Value>>, n: nat, key: string)
    requires n <= |layers|
    ensures GetUpTo([m] + layers, n + 1, key) ==
              if GetUpTo(layers, n, key).Some? then GetUpTo(layers, n, key)
              else if key in m then Some(m[key]) else None
  {
    if n > 0 {
      assert ([m] + layers)[n] == layers[n - 1];
      GetUpToPrepend(m, layers, n - 1, key);
    }
  }

  // The key-not-found strategies.

  /** A printer without a strategy keeps the key, as if KeepKey were set. */
  lemma {:induction false} NoStrategyKeepsKey(p: Printer, layers: seq<map<string, Value>>, segs: seq<Segment>)
    ensures FormatSegments(p.(keyNotFound := None), layers, segs) ==
            FormatSegments(p.(keyNotFound := Some(KeepKey)), layers, segs)
  {
    if segs != [] {
      NoStrategyKeepsKey(p, layers, segs[1..]);
    }
  }

  /** The strategy is consulted only for unbound keys: when every directive's
      key is bound, any strategy gives the same output. */
  lemma {:induction false} StrategyUnusedWhenBound(p: Printer, k: Option<KeyNotFound>, layers: seq<map<string, Value>>, segs: seq<Segment>)
    requires forall j | 0 <= j < |segs| :: segs[j].Placeholder? ==> Get(layers, segs[j].d.key).Some?
    ensures FormatSegments(p.(keyNotFound := k), layers, segs) == FormatSegments(p, layers, segs)
  {
    if segs != [] {
      assert forall j | 1 <= j < |segs| :: segs[j] == segs[1..][j - 1];
      StrategyUnusedWhenBound(p, k, layers, segs[1..]);
    }
  }

  /** DefaultValue(v) prints an unbound key's directive exactly as if the
      key were bound to v, through the same value printer and with the
      directive's own modifiers. */
  lemma DefaultValueIsBinding(p: Printer, layers: seq<map<string, Value>>, d: Directive, v: Value)
    requires p.keyNotFound == Some(DefaultValue(v)) && Get(layers, d.key).None?
    ensures RenderSegment(p, layers, Placeholder(d)) == RenderSegment(p, layers + [map[d.key := v]], Placeholder(d))
  {
    LaterLayerWins(layers, map[d.key := v], d.key);
  }

  /** KeepKey with nothing bound writes every segment's own source text, an
      escape aside, which stands for one token. */
  lemma {:induction false} KeepKeyRestoresSegments(p: Printer, segs: seq<Segment>)
    requires p.keyNotFound.GetOr(KeepKey).KeepKey?
    requires NoEscapes(segs)
    ensures FormatSegments(p, [], segs) == Ok(Unscan(segs, Token(p)))
  {
    if segs != [] {
      assert forall j | 1 <= j < |segs| :: segs[j] == segs[1..][j - 1];
      KeepKeyRestoresSegments(p, segs[1..]);
    }
  }

  /** With KeepKey and no bindings, a template with no escaped token is
      printed unchanged: every directive is written back as it stands. */
  lemma KeepKeyRestoresTemplate(p: Printer, template: string)
    requires p.keyNotFound.GetOr(KeepKey).KeepKey? && p.defaultBindings.None?
    requires forall k | 0 <= k < |template| - 1 :: !(template[k] == Token(p) && template[k + 1] == Token(p))
    ensures Sprintf(p, template, []) == Ok(template)
  {
    var t := Token(p);
    LexIsScan(template, t, 0);
    NoDoubleTokenMeans(template, t, 0);
    EscapesNeedTwoTokens(template, t, 0);
    KeepKeyRestoresSegments(p, Scan(template, t, 0));
    ScanRoundTrip(template, t, 0);
    assert template[0..] == template;
    assert AllSources(p, []) == [];
  }

  /** A template without the token is copied as it stands. */
  lemma PlainTemplateIsCopied(p: Printer, template: string, sources: seq<Source>)
    requires forall k | 0 <= k < |template| :: template[k] != Token(p)
    requires p.suppressErrors || MakeBindings(AllSources(p, sources)).errors == []
    ensures Sprintf(p, template, sources) == Ok(template)
  {
    var t := Token(p);
    LexIsScan(template, t, 0);
    var b := MakeBindings(AllSources(p, sources));
    if template != [] {
      ScanOfPlainText(template, t, 0);
      assert template[0..] == template;
      assert FormatSegments(p, b.layers, [Text(template)]) == Ok(template + "") by {
        assert [Text(template)][1..] == [];
      }
      assert template + "" == template;
    } else {
      assert Scan(template, t, 0) == [];
    }
  }
}
