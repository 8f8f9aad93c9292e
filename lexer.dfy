/** The scanner as a cursor: it reads the template one character at a time,
    carrying in its parameters where the current segment began and which
    part of a directive it is in, and emits a segment whenever one ends.
    It is proved to split every template exactly as the grammar of module
    Grammar describes (LexIsScan), so every property proved about Scan holds
    of the segments the printer formats. */
module Lexer {
  import opened Values
  import opened Grammar
  import Decimal

  /** The segments from position i on. */
  function Lex(s: string, t: char, i: nat): seq<Segment>
    requires i <= |s|
    decreases |s| - i, 9, 0
  {
    if i == |s| then []
    else if s[i] != t then LexText(s, t, i, i + 1)
    else LexToken(s, t, i)
  }

  /** Inside literal text that began at `start`; k is the cursor. */
  function LexText(s: string, t: char, start: nat, k: nat): seq<Segment>
    requires start < k <= |s|
    decreases |s| - start, 8, |s| - k
  {
    if k < |s| && s[k] != t then LexText(s, t, start, k + 1)
    else [Text(s[start..k])] + Lex(s, t, k)
  }

  /** A token at i: skip an alignment mark, if there is one, and read the
      fill sequence. */
  function LexToken(s: string, t: char, i: nat): seq<Segment>
    requires i < |s|
    decreases |s| - i, 7, 0
  {
    var a := i + 1;
    if a < |s| && IsAlignMark(s[a]) then LexFill(s, t, i, a + 1, a + 1) else LexFill(s, t, i, a, a)
  }

  /** Reading a fill sequence that began at a. It stands only if width
      digits follow; otherwise the width is read from a. */
  function LexFill(s: string, t: char, i: nat, a: nat, k: nat): seq<Segment>
    requires i < a <= k <= |s|
    decreases |s| - i, 6, |s| - k
  {
    if k < |s| && IsFillChar(s[k]) then LexFill(s, t, i, a, k + 1)
    else if a < k < |s| && Decimal.IsDigit(s[k]) then LexWidth(s, t, i, k)
    else LexWidth(s, t, i, a)
  }

  /** Reading width digits; a `.` after them starts the precision. */
  function LexWidth(s: string, t: char, i: nat, k: nat): seq<Segment>
    requires i < k <= |s|
    decreases |s| - i, 5, |s| - k
  {
    if k < |s| && Decimal.IsDigit(s[k]) then LexWidth(s, t, i, k + 1)
    else if k < |s| && s[k] == '.' then LexPrecision(s, t, i, k + 1)
    else LexKey(s, t, i, k, k)
  }

  /** Reading precision digits. */
  function LexPrecision(s: string, t: char, i: nat, k: nat): seq<Segment>
    requires i < k <= |s|
    decreases |s| - i, 4, |s| - k
  {
    if k < |s| && Decimal.IsDigit(s[k]) then LexPrecision(s, t, i, k + 1)
    else LexKey(s, t, i, k, k)
  }

  /** Reading a key that begins at p, after the prefix s[i+1..p]. When no
      key begins there, the cursor goes back to just after the token. */
  function LexKey(s: string, t: char, i: nat, p: nat, k: nat): seq<Segment>
    requires i < p <= k <= |s|
    decreases |s| - i, 3, |s| - k
  {
    if k < |s| && (if k == p then IsLetter(s[k]) else IsKeyChar(s[k])) then LexKey(s, t, i, p, k + 1)
    else if k > p then [Placeholder(Directive(s[i + 1..p], s[p..k]))] + Lex(s, t, k)
    else LexBareKey(s, t, i, i + 1)
  }

  /** Reading a key right after the token, with no prefix. When there is
      none, a second token makes an escape and anything else leaves the
      token as literal text. */
  function LexBareKey(s: string, t: char, i: nat, k: nat): seq<Segment>
    requires i < k <= |s|
    decreases |s| - i, 2, |s| - k
  {
    if k < |s| && (if k == i + 1 then IsLetter(s[k]) else IsKeyChar(s[k])) then LexBareKey(s, t, i, k + 1)
    else if k > i + 1 then [Placeholder(Directive("", s[i + 1..k]))] + Lex(s, t, k)
    else if i + 1 < |s| && s[i + 1] == t then [Escape] + Lex(s, t, i + 2)
    else [Text([t])] + Lex(s, t, i + 1)
  }

  // Each stage of the cursor computes the position the grammar names.

  lemma {:induction false} LexTextRun(s: string, t: char, start: nat, k: nat)
    requires start < k <= |s|
    ensures var j := RunEnd(s, k, Except(t));
            LexText(s, t, start, k) == [Text(s[start..j])] + Lex(s, t, j)
    decreases |s| - k
  {
    if k < |s| && s[k] != t {
      LexTextRun(s, t, start, k + 1);
    }
  }

  lemma {:induction false} LexKeyRun(s: string, t: char, i: nat, p: nat, k: nat)
    requires i < p < k <= |s|
    ensures var j := RunEnd(s, k, KeyChars);
            LexKey(s, t, i, p, k) == [Placeholder(Directive(s[i + 1..p], s[p..j]))] + Lex(s, t, j)
    decreases |s| - k
  {
    if k < |s| && IsKeyChar(s[k]) {
      LexKeyRun(s, t, i, p, k + 1);
    }
  }

  lemma LexKeyStart(s: string, t: char, i: nat, p: nat)
    requires i < p <= |s|
    ensures var j := KeyEnd(s, p);
            LexKey(s, t, i, p, p) ==
              if j > p then [Placeholder(Directive(s[i + 1..p], s[p..j]))] + Lex(s, t, j)
              else LexBareKey(s, t, i, i + 1)
  {
    if p < |s| && IsLetter(s[p]) {
      LexKeyRun(s, t, i, p, p + 1);
    }
  }

  lemma {:induction false} LexBareKeyRun(s: string, t: char, i: nat, k: nat)
    requires i + 1 < k <= |s|
    ensures var j := RunEnd(s, k, KeyChars);
            LexBareKey(s, t, i, k) == [Placeholder(Directive("", s[i + 1..j]))] + Lex(s, t, j)
    decreases |s| - k
  {
    if k < |s| && IsKeyChar(s[k]) {
      LexBareKeyRun(s, t, i, k + 1);
    }
  }

  lemma LexBareKeyStart(s: string, t: char, i: nat)
    requires i < |s|
    ensures var j := KeyEnd(s, i + 1);
            LexBareKey(s, t, i, i + 1) ==
              if j > i + 1 then [Placeholder(Directive("", s[i + 1..j]))] + Lex(s, t, j)
              else if i + 1 < |s| && s[i + 1] == t then [Escape] + Lex(s, t, i + 2)
              else [Text([t])] + Lex(s, t, i + 1)
  {
    if i + 1 < |s| && IsLetter(s[i + 1]) {
      LexBareKeyRun(s, t, i, i + 2);
    }
  }

  lemma {:induction false} LexPrecisionRun(s: string, t: char, i: nat, k: nat)
    requires i < k <= |s|
    ensures var j := RunEnd(s, k, Digits);
            LexPrecision(s, t, i, k) == LexKey(s, t, i, j, j)
    decreases |s| - k
  {
    if k < |s| && Decimal.IsDigit(s[k]) {
      LexPrecisionRun(s, t, i, k + 1);
    }
  }

  lemma {:induction false} LexWidthRun(s: string, t: char, i: nat, k: nat)
    requires i < k <= |s|
    ensures var w := RunEnd(s, k, Digits);
            LexWidth(s, t, i, k) ==
              if w < |s| && s[w] == '.' then LexPrecision(s, t, i, w + 1) else LexKey(s, t, i, w, w)
    decreases |s| - k
  {
    if k < |s| && Decimal.IsDigit(s[k]) {
      LexWidthRun(s, t, i, k + 1);
    }
  }

  lemma {:induction false} LexFillRun(s: string, t: char, i: nat, a: nat, k: nat)
    requires i < a <= k <= |s|
    ensures var f := RunEnd(s, k, FillChars);
            LexFill(s, t, i, a, k) ==
              if a < f < |s| && Decimal.IsDigit(s[f]) then LexWidth(s, t, i, f) else LexWidth(s, t, i, a)
    decreases |s| - k
  {
    if k < |s| && IsFillChar(s[k]) {
      LexFillRun(s, t, i, a, k + 1);
    }
  }

  /** After a token the cursor reads the modifier grammar's prefix and
      arrives where PrefixEnd says it ends. */
  lemma LexTokenPrefix(s: string, t: char, i: nat)
    requires i < |s|
    ensures var p := PrefixEnd(s, i + 1);
            LexToken(s, t, i) == LexKey(s, t, i, p, p)
  {
    var a := FillStart(s, i + 1);
    var w0 := WidthStart(s, i + 1);
    var w := WidthEnd(s, i + 1);
    assert LexToken(s, t, i) == LexFill(s, t, i, a, a);
    LexFillRun(s, t, i, a, a);
    assert LexFill(s, t, i, a, a) == LexWidth(s, t, i, w0);
    LexWidthRun(s, t, i, w0);
    if HasPrecision(s, i + 1) {
      LexPrecisionRun(s, t, i, w + 1);
    }
  }

  /** The text run the cursor reads is the grammar's TextSegment. */
  lemma LexTextStep(s: string, t: char, i: nat)
    requires i < |s| && s[i] != t
    ensures var seg := TextSegment(s, t, i);
            Lex(s, t, i) == [seg] + Lex(s, t, i + |SourceText(seg, t)|)
  {
    LexTextRun(s, t, i, i + 1);
    assert In(s[i], Except(t));
    assert RunEnd(s, i, Except(t)) == RunEnd(s, i + 1, Except(t));
  }

  /** What the cursor reads after a token is the grammar's TokenSegment. */
  lemma LexTokenStep(s: string, t: char, i: nat)
    requires i < |s| && s[i] == t
    ensures var seg := TokenSegment(s, t, i);
            Lex(s, t, i) == [seg] + Lex(s, t, i + |SourceText(seg, t)|)
  {
    var p := PrefixEnd(s, i + 1);
    var k := KeyEnd(s, p);
    var seg := TokenSegment(s, t, i);
    LexTokenPrefix(s, t, i);
    LexKeyStart(s, t, i, p);
    if k > p {
      var d := Directive(s[i + 1..p], s[p..k]);
      assert ParseDirective(s, i + 1) == Some(d);
      assert seg == Placeholder(d);
      assert |SourceText(seg, t)| == k - i;
    } else {
      LexBareKeyStart(s, t, i);
      var k0 := KeyEnd(s, i + 1);
      if k0 > i + 1 {
        var d := Directive("", s[i + 1..k0]);
        assert ParseDirective(s, i + 1) == Some(d);
        assert seg == Placeholder(d);
        assert |SourceText(seg, t)| == k0 - i;
      } else {
        assert ParseDirective(s, i + 1) == None;
      }
    }
  }

  /** One step of the cursor emits exactly the grammar's next segment and
      resumes where that segment's source text ends. */
  lemma LexStep(s: string, t: char, i: nat)
    requires i < |s|
    ensures var seg := NextSegment(s, t, i);
            Lex(s, t, i) == [seg] + Lex(s, t, i + |SourceText(seg, t)|)
  {
    var seg := NextSegment(s, t, i);
    if s[i] != t {
      LexTextStep(s, t, i);
      LexStepAs(s, t, i, TextSegment(s, t, i), seg);
    } else {
      LexTokenStep(s, t, i);
      LexStepAs(s, t, i, TokenSegment(s, t, i), seg);
    }
  }

  /** A step stated for one segment holds for an equal one. */
  lemma LexStepAs(s: string, t: char, i: nat, a: Segment, b: Segment)
    requires i < |s| && i + |SourceText(a, t)| <= |s|
    requires Lex(s, t, i) == [a] + Lex(s, t, i + |SourceText(a, t)|)
    requires a == b
    ensures Lex(s, t, i) == [b] + Lex(s, t, i + |SourceText(b, t)|)
  {
  }

  /** If the cursor and the grammar agree after the next segment, they
      agree from its start. */
  lemma LexScanStep(s: string, t: char, i: nat, next: nat)
    requires i < |s| && next == i + |SourceText(NextSegment(s, t, i), t)|
    requires Lex(s, t, next) == Scan(s, t, next)
    ensures Lex(s, t, i) == Scan(s, t, i)
  {
    LexStep(s, t, i);
    ScanStep(s, t, i);
  }

  /** The cursor and the grammar split every template alike. */
  lemma {:induction false} LexIsScan(s: string, t: char, i: nat)
    requires i <= |s|
    ensures Lex(s, t, i) == Scan(s, t, i)
    decreases |s| - i
  {
    if i < |s| {
      var next := i + |SourceText(NextSegment(s, t, i), t)|;
      LexIsScan(s, t, next);
      LexScanStep(s, t, i, next);
    }
  }

  // Reading the segments back.

  /** The cursor loses nothing: the source texts of the segments it emits
      from position i spell out the template from i. */
  lemma {:induction false} LexRoundTrip(s: string, t: char, i: nat)
    requires i <= |s|
    ensures Unscan(Lex(s, t, i), t) == s[i..]
    decreases |s| - i, 9, 0
  {
    if i == |s| {
      assert Lex(s, t, i) == [];
    } else if s[i] != t {
      TextRoundTrip(s, t, i, i + 1);
    } else {
      TokenRoundTrip(s, t, i);
    }
  }

  lemma {:induction false} TextRoundTrip(s: string, t: char, start: nat, k: nat)
    requires start < k <= |s|
    ensures Unscan(LexText(s, t, start, k), t) == s[start..]
    decreases |s| - start, 8, |s| - k
  {
    if k < |s| && s[k] != t {
      TextRoundTrip(s, t, start, k + 1);
    } else {
      LexRoundTrip(s, t, k);
      Emitted(s, t, start, k, Text(s[start..k]), Lex(s, t, k));
    }
  }

  lemma {:induction false} TokenRoundTrip(s: string, t: char, i: nat)
    requires i < |s| && s[i] == t
    ensures Unscan(LexToken(s, t, i), t) == s[i..]
    decreases |s| - i, 7, 0
  {
    var a := i + 1;
    if a < |s| && IsAlignMark(s[a]) {
      FillRoundTrip(s, t, i, a + 1, a + 1);
    } else {
      FillRoundTrip(s, t, i, a, a);
    }
  }

  lemma {:induction false} FillRoundTrip(s: string, t: char, i: nat, a: nat, k: nat)
    requires i < a <= k <= |s| && s[i] == t
    ensures Unscan(LexFill(s, t, i, a, k), t) == s[i..]
    decreases |s| - i, 6, |s| - k
  {
    if k < |s| && IsFillChar(s[k]) {
      FillRoundTrip(s, t, i, a, k + 1);
    } else if a < k < |s| && Decimal.IsDigit(s[k]) {
      WidthRoundTrip(s, t, i, k);
    } else {
      WidthRoundTrip(s, t, i, a);
    }
  }

  lemma {:induction false} WidthRoundTrip(s: string, t: char, i: nat, k: nat)
    requires i < k <= |s| && s[i] == t
    ensures Unscan(LexWidth(s, t, i, k), t) == s[i..]
    decreases |s| - i, 5, |s| - k
  {
    if k < |s| && Decimal.IsDigit(s[k]) {
      WidthRoundTrip(s, t, i, k + 1);
    } else if k < |s| && s[k] == '.' {
      PrecisionRoundTrip(s, t, i, k + 1);
    } else {
      KeyRoundTrip(s, t, i, k, k);
    }
  }

  lemma {:induction false} PrecisionRoundTrip(s: string, t: char, i: nat, k: nat)
    requires i < k <= |s| && s[i] == t
    ensures Unscan(LexPrecision(s, t, i, k), t) == s[i..]
    decreases |s| - i, 4, |s| - k
  {
    if k < |s| && Decimal.IsDigit(s[k]) {
      PrecisionRoundTrip(s, t, i, k + 1);
    } else {
      KeyRoundTrip(s, t, i, k, k);
    }
  }

  lemma {:induction false} KeyRoundTrip(s: string, t: char, i: nat, p: nat, k: nat)
    requires i < p <= k <= |s| && s[i] == t
    ensures Unscan(LexKey(s, t, i, p, k), t) == s[i..]
    decreases |s| - i, 3, |s| - k
  {
    if k < |s| && (if k == p then IsLetter(s[k]) else IsKeyChar(s[k])) {
      KeyRoundTrip(s, t, i, p, k + 1);
    } else if k > p {
      var d := Directive(s[i + 1..p], s[p..k]);
      assert d.prefix + d.key == s[i + 1..k];
      PlaceholderSpelled(s, t, i, k, d);
      LexRoundTrip(s, t, k);
      Emitted(s, t, i, k, Placeholder(d), Lex(s, t, k));
    } else {
      BareKeyRoundTrip(s, t, i, i + 1);
    }
  }

  lemma {:induction false} BareKeyRoundTrip(s: string, t: char, i: nat, k: nat)
    requires i < k <= |s| && s[i] == t
    ensures Unscan(LexBareKey(s, t, i, k), t) == s[i..]
    decreases |s| - i, 2, |s| - k
  {
    if k < |s| && (if k == i + 1 then IsLetter(s[k]) else IsKeyChar(s[k])) {
      BareKeyRoundTrip(s, t, i, k + 1);
    } else if k > i + 1 {
      var d := Directive("", s[i + 1..k]);
      assert d.prefix + d.key == s[i + 1..k];
      PlaceholderSpelled(s, t, i, k, d);
      LexRoundTrip(s, t, k);
      Emitted(s, t, i, k, Placeholder(d), Lex(s, t, k));
    } else if i + 1 < |s| && s[i + 1] == t {
      assert s[i..i + 2] == [t, t];
      LexRoundTrip(s, t, i + 2);
      Emitted(s, t, i, i + 2, Escape, Lex(s, t, i + 2));
    } else {
      assert s[i..i + 1] == [t];
      LexRoundTrip(s, t, i + 1);
      Emitted(s, t, i, i + 1, Text([t]), Lex(s, t, i + 1));
    }
  }

  /** A segment spelled by the template up to j, followed by segments that
      spell the rest, spells the template from i. */
  lemma Emitted(s: string, t: char, i: nat, j: nat, seg: Segment, rest: seq<Segment>)
    requires i <= j <= |s|
    requires s[i..j] == SourceText(seg, t)
    requires Unscan(rest, t) == s[j..]
    ensures Unscan([seg] + rest, t) == s[i..]
  {
    UnscanCons(seg, rest, t);
    assert s[i..] == s[i..j] + s[j..];
  }

  /** A placeholder is spelled by the token and the directive's text. */
  lemma PlaceholderSpelled(s: string, t: char, i: nat, k: nat, d: Directive)
    requires i < k <= |s| && s[i] == t
    requires d.prefix + d.key == s[i + 1..k]
    ensures s[i..k] == SourceText(Placeholder(d), t)
  {
    assert s[i..k] == [s[i]] + s[i + 1..k];
    assert [t] + d.prefix + d.key == [t] + (d.prefix + d.key);
  }

  /** Scanning loses nothing: the segments' source texts spell out the
      template again, from the position the scan started at. */
  lemma ScanRoundTrip(s: string, token: char, i: nat)
    requires i <= |s|
    ensures Unscan(Scan(s, token, i), token) == s[i..]
  {
    LexIsScan(s, token, i);
    LexRoundTrip(s, token, i);
  }
}
