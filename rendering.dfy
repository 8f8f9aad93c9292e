/** The value renderer: the text of each kind of value, the precision acting
    as an element selector on lists, and the default value printer that pads
    the text as the directive's prefix asks. */
module Rendering {
  import opened Values
  import opened Padding
  import Decimal
  import opened Grammar

  /** Parts separated by ", ". */
  function Join(parts: seq<string>): string
  {
    if parts == [] then ""
    else if |parts| == 1 then parts[0]
    else parts[0] + ", " + Join(parts[1..])
  }

  /** An integer's text: base 10, or fixed-point when a precision is given
      (the integer is shown as a floating-point number would be). */
  function Number(i: int, precision: Option<nat>): string
  {
    match precision
    case None => Decimal.IntToString(i)
    case Some(p) => Decimal.FixedPoint(i, p)
  }

  /** The text of a value. A pointer is followed; a function's results are
      rendered as the value itself when there is one and as a list when
      there are several; nil and kinds without a text form are errors. */
  function Render(v: Value, precision: Option<nat>): Result<string>
    decreases v, 2
  {
    match v
    case Str(s) => Ok(s)
    case Int(i) => Ok(Number(i, precision))
    case Uint(n) => Ok(Number(n, precision))
    case Bool(b) => Ok(if b then "true" else "false")
    case Rune(c) => Ok(Number(c as int, precision))
    case Ptr(t) => Render(t, precision)
    case List(xs) => RenderList(xs, precision)
    case Func(rs) =>
      if |rs| == 0 then Ok("")
      else if |rs| == 1 then Render(rs[0], precision)
      else RenderList(rs, precision)
    case Nil => Err(NilValue)
    case Unsupported => Err(UnsupportedValue)
  }

  /** A list in full, bracketed, or under a precision p only its element p. */
  function RenderList(xs: seq<Value>, precision: Option<nat>): Result<string>
    decreases xs, 1
  {
    match precision
    case None =>
      var parts :- RenderAll(xs);
      Ok("[" + Join(parts) + "]")
    case Some(p) =>
      if p < |xs| then Render(xs[p], None) else Err(IndexOutOfRange(p, |xs|))
  }

  function RenderAll(xs: seq<Value>): Result<seq<string>>
    decreases xs, 0
  {
    if xs == [] then Ok([])
    else
      var head :- Render(xs[0], None);
      var tail :- RenderAll(xs[1..]);
      Ok([head] + tail)
  }

  /** Whether a value is shown in fixed-point form, the one form a leading
      `0` in the width pads with zeros. */
  predicate IsFixedPoint(v: Value, precision: Option<nat>)
  {
    precision.Some? &&
    match v
    case Int(_) => true
    case Uint(_) => true
    case Rune(_) => true
    case Ptr(t) => IsFixedPoint(t, precision)
    case Func(rs) => |rs| == 1 && IsFixedPoint(rs[0], precision)
    case _ => false
  }

  /** The built-in value printer: reads the modifiers from the raw prefix,
      renders the value and pads the text. */
  function DefaultPrint(prefix: string, v: Value): Result<string>
  {
    PrintWith(ParseModifiers(prefix), v)
  }

  /** A value rendered and padded as the modifiers ask. A width with a
      leading `0` puts zeros in the left pad region of a fixed-point number;
      the right region keeps the fill sequence. */
  function PrintWith(m: Modifiers, v: Value): Result<string>
  {
    var text :- Render(v, m.precision);
    Ok(Pad(text, m.align, if m.zeroPad && IsFixedPoint(v, m.precision) then "0" else m.fill, m.fill, m.width))
  }

  /** Zero padding never changes the number shown: zeros go only before a
      fixed-point number, so right alignment puts zeros in front of it and
      left alignment puts the fill sequence after it. */
  lemma ZeroPadding(m: Modifiers, v: Value, text: string)
    requires m.zeroPad && IsFixedPoint(v, m.precision) && Render(v, m.precision) == Ok(text)
    requires |text| < m.width
    ensures m.align == Right ==> PrintWith(m, v) == Ok(Tile("0", m.width - |text|) + text)
    ensures m.align == Left ==> PrintWith(m, v) == Ok(text + Tile(m.fill, m.width - |text|))
  {
    if m.align == Right {
      ZeroPadsRight(m, v, text);
    } else if m.align == Left {
      ZeroPadsLeft(m, v, text);
    }
  }

  /** Right alignment puts the zeros in front of the number. */
  lemma ZeroPadsRight(m: Modifiers, v: Value, text: string)
    requires m.zeroPad && IsFixedPoint(v, m.precision) && Render(v, m.precision) == Ok(text)
    requires |text| < m.width && m.align == Right
    ensures PrintWith(m, v) == Ok(Tile("0", m.width - |text|) + text)
  {
    var r := Pad(text, Right, "0", m.fill, m.width);
    PrintWithZeros(m, v, text);
    RightPadsBefore(text, "0", m.fill, m.width);
    assert r == Tile("0", m.width - |text|) + text;
  }

  /** Left alignment puts the fill sequence, not zeros, after the number. */
  lemma ZeroPadsLeft(m: Modifiers, v: Value, text: string)
    requires m.zeroPad && IsFixedPoint(v, m.precision) && Render(v, m.precision) == Ok(text)
    requires |text| < m.width && m.align == Left
    ensures PrintWith(m, v) == Ok(text + Tile(m.fill, m.width - |text|))
  {
    var r := Pad(text, Left, "0", m.fill, m.width);
    PrintWithZeros(m, v, text);
    LeftPadsAfter(text, "0", m.fill, m.width);
    assert r == text + Tile(m.fill, m.width - |text|);
  }

  /** Under zero padding a fixed-point number's left region is tiled with zeros. */
  lemma PrintWithZeros(m: Modifiers, v: Value, text: string)
    requires m.zeroPad && IsFixedPoint(v, m.precision) && Render(v, m.precision) == Ok(text)
    ensures PrintWith(m, v) == Ok(Pad(text, m.align, "0", m.fill, m.width))
  {
  }

  /** A pointer prints as the value it points to. */
  lemma PointerIsTransparent(prefix: string, v: Value)
    ensures DefaultPrint(prefix, Ptr(v)) == DefaultPrint(prefix, v)
  {
  }

  /** A function with one result prints as that result, one with several
      as the list of its results, and one with none as the empty text. */
  lemma FunctionResults(prefix: string, rs: seq<Value>)
    ensures |rs| == 1 ==> DefaultPrint(prefix, Func(rs)) == DefaultPrint(prefix, rs[0])
    ensures |rs| > 1 ==> DefaultPrint(prefix, Func(rs)) == DefaultPrint(prefix, List(rs))
    ensures |rs| == 0 ==> Render(Func(rs), ParseModifiers(prefix).precision) == Ok("")
  {
  }

  /** Values with no text form are errors, whatever the prefix. */
  lemma NoTextForm(prefix: string)
    ensures DefaultPrint(prefix, Nil) == Err(NilValue)
    ensures DefaultPrint(prefix, Unsupported) == Err(UnsupportedValue)
  {
  }

  /** Under a precision a list stands for one of its elements, rendered
      without precision; an index past the end is an error. */
  lemma ListSelect(xs: seq<Value>, p: nat)
    ensures p < |xs| ==> Render(List(xs), Some(p)) == Render(xs[p], None)
    ensures p >= |xs| ==> Render(List(xs), Some(p)) == Err(IndexOutOfRange(p, |xs|))
  {
  }

  /** A whole list renders exactly when each element does, and then each
      part is its element's text. */
  lemma {:induction false} RenderAllElementwise(xs: seq<Value>)
    ensures RenderAll(xs).Ok? <==> forall k | 0 <= k < |xs| :: Render(xs[k], None).Ok?
    ensures RenderAll(xs).Ok? ==>
              && |RenderAll(xs).value| == |xs|
              && forall k | 0 <= k < |xs| :: RenderAll(xs).value[k] == Render(xs[k], None).value
    decreases |xs|
  {
    if xs != [] {
      RenderAllElementwise(xs[1..]);
      assert forall k | 1 <= k < |xs| :: xs[k] == xs[1..][k - 1];
    }
  }

  /** The parts in order with ", " between neighbours: each part is followed
      by the separator, except the last. */
  lemma {:induction false} JoinCons(x: string, rest: seq<string>)
    ensures Join([x] + rest) == if rest == [] then x else x + ", " + Join(rest)
  {
    assert ([x] + rest)[1..] == rest;
  }

  /** Joining is compositional: two non-empty runs of parts joined one after
      the other are separated by one ", ". */
  lemma {:induction false} JoinConcat(a: seq<string>, b: seq<string>)
    requires a != [] && b != []
    ensures Join(a + b) == Join(a) + ", " + Join(b)
    decreases |a|
  {
    assert (a + b)[0] == a[0];
    if |a| == 1 {
      assert (a + b)[1..] == b;
    } else {
      assert (a + b)[1..] == a[1..] + b;
      JoinConcat(a[1..], b);
      assert a[0] + ", " + (Join(a[1..]) + ", " + Join(b)) == (a[0] + ", " + Join(a[1..])) + ", " + Join(b);
    }
  }

  /** The built-in printer succeeds exactly when the value renders under the
      prefix's precision, and then widens the text to the prefix's width
      without ever cutting it, placing it as the alignment says. */
  lemma DefaultPrintShape(prefix: string, v: Value)
    ensures var m := ParseModifiers(prefix);
            DefaultPrint(prefix, v).Ok? <==> Render(v, m.precision).Ok?
    ensures var m := ParseModifiers(prefix);
            var text := Render(v, m.precision);
            text.Ok? ==>
              var r := DefaultPrint(prefix, v).value;
              && |r| == (if |text.value| >= m.width then |text.value| else m.width)
              && (|text.value| >= m.width ==> r == text.value)
              && (|text.value| < m.width ==>
                    var left := LeftShare(m.align, m.width - |text.value|);
                    r[left..left + |text.value|] == text.value)
  {
  }
}
