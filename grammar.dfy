/** The scanner and the directive grammar: splits a template into literal
    text, escaped tokens and directives, and reads a directive's modifier
    prefix (alignment, fill, width, precision) and key.

    Positions are indices into the whole template, as a cursor moving over
    its characters. */
module Grammar {
  import opened Values
  import opened Padding
  import Decimal

  /** Characters that may start a key. */
  predicate IsLetter(c: char) {
    'a' <= c <= 'z' || 'A' <= c <= 'Z' || c == '_'
  }

  /** Characters that may continue a key. */
  predicate IsKeyChar(c: char) {
    IsLetter(c) || Decimal.IsDigit(c)
  }

  /** Characters that may stand in a fill sequence: anything that does not
      begin the width or the precision. */
  predicate IsFillChar(c: char) {
    !Decimal.IsDigit(c) && c != '.'
  }

  predicate IsAlignMark(c: char) {
    c == '+' || c == '-' || c == '|'
  }

  function AlignOf(c: char): Align {
    if c == '-' then Left else if c == '|' then Center else Right
  }

  /** The character classes a run of the template is read in. */
  datatype CharClass = KeyChars | FillChars | Digits | Except(token: char)

  predicate In(c: char, cl: CharClass) {
    match cl
    case KeyChars => IsKeyChar(c)
    case FillChars => IsFillChar(c)
    case Digits => Decimal.IsDigit(c)
    case Except(token) => c != token
  }

  /** The end of the run of characters of class cl that starts at i. */
  function RunEnd(s: string, i: nat, cl: CharClass): (j: nat)
    requires i <= |s|
    ensures i <= j <= |s|
    decreases |s| - i
  {
    if i == |s| || !In(s[i], cl) then i else RunEnd(s, i + 1, cl)
  }

  /** RunEnd finds the longest such run: every character before the end
      is in the class and the character at the end is not. */
  lemma {:induction false} RunEndIsMaximal(s: string, i: nat, cl: CharClass)
    requires i <= |s|
    ensures forall k | i <= k < RunEnd(s, i, cl) :: In(s[k], cl)
    ensures RunEnd(s, i, cl) < |s| ==> !In(s[RunEnd(s, i, cl)], cl)
    decreases |s| - i
  {
    if i < |s| && In(s[i], cl) {
      RunEndIsMaximal(s, i + 1, cl);
    }
  }

  /** Conversely, any maximal run is the one RunEnd finds. */
  lemma {:induction false} MaximalRunIsRunEnd(s: string, i: nat, j: nat, cl: CharClass)
    requires i <= j <= |s|
    requires forall k | i <= k < j :: In(s[k], cl)
    requires j < |s| ==> !In(s[j], cl)
    ensures RunEnd(s, i, cl) == j
    decreases j - i
  {
    if i < j {
      MaximalRunIsRunEnd(s, i + 1, j, cl);
    }
  }

  /** Where a key starting at i ends (i itself when none starts there): a
      letter or underscore, then letters, digits and underscores, as many as
      there are. */
  function KeyEnd(s: string, i: nat): (j: nat)
    requires i <= |s|
    ensures i <= j <= |s|
    ensures j > i <==> i < |s| && IsLetter(s[i])
  {
    if i < |s| && IsLetter(s[i]) then RunEnd(s, i, KeyChars) else i
  }

  /** A key is the longest identifier there: all key characters, and the
      character after it cannot continue it. */
  lemma KeyEndIsMaximal(s: string, i: nat)
    requires i <= |s|
    ensures forall k | i <= k < KeyEnd(s, i) :: IsKeyChar(s[k])
    ensures i < KeyEnd(s, i) < |s| ==> !IsKeyChar(s[KeyEnd(s, i)])
  {
    RunEndIsMaximal(s, i, KeyChars);
  }

  /** What a directive's modifier prefix asks for. A precision is present
      exactly when the prefix holds a `.`; `zeroPad` records a width written
      with a leading `0`. */
  datatype Modifiers = Modifiers(align: Align, fill: Fill, width: nat, zeroPad: bool, precision: Option<nat>)

  /** A directive with an empty prefix: right-aligned, space fill, no width
      and no precision. */
  const Plain := Modifiers(Right, " ", 0, false, None)

  /** The modifier grammar, read from position i: an optional alignment mark
      (`+`, `-`, `|`); a fill sequence, which is the run of characters up to
      the first digit or `.` and is kept only when width digits follow it;
      the width digits; an optional `.` followed by precision digits (a bare
      `.` means precision 0). Every part may be empty. The positions where the
      parts begin and end come first, then the modifiers they spell. */

  /** Where the fill sequence may begin: after the alignment mark, if any. */
  function FillStart(s: string, i: nat): (a: nat)
    requires i <= |s|
    ensures i <= a <= |s| && a <= i + 1
  {
    if i < |s| && IsAlignMark(s[i]) then i + 1 else i
  }

  /** Where the width digits begin: after the fill sequence when digits
      follow it, and otherwise where the fill sequence would have begun. */
  function WidthStart(s: string, i: nat): (w0: nat)
    requires i <= |s|
    ensures FillStart(s, i) <= w0 <= |s|
  {
    var a := FillStart(s, i);
    var f := RunEnd(s, a, FillChars);
    if a < f < |s| && Decimal.IsDigit(s[f]) then f else a
  }

  /** The fill sequence reaches as far as the first digit or `.`, across
      spaces, tokens and every other character, whenever a digit stands
      there: `%A %1B` reads as fill `A %` and width 1. */
  lemma FillReachesWidth(s: string, i: nat, f: nat)
    requires i <= |s| && FillStart(s, i) < f < |s| && Decimal.IsDigit(s[f])
    requires forall k | FillStart(s, i) <= k < f :: IsFillChar(s[k])
    ensures WidthStart(s, i) == f
    ensures FillAt(s, i) == s[FillStart(s, i)..f]
  {
    MaximalRunIsRunEnd(s, FillStart(s, i), f, FillChars);
  }

  function WidthEnd(s: string, i: nat): (w: nat)
    requires i <= |s|
    ensures WidthStart(s, i) <= w <= |s|
  {
    RunEnd(s, WidthStart(s, i), Digits)
  }

  /** Whether a `.` follows the width. */
  predicate HasPrecision(s: string, i: nat)
    requires i <= |s|
  {
    WidthEnd(s, i) < |s| && s[WidthEnd(s, i)] == '.'
  }

  /** Where the modifier prefix ends and the key may begin. */
  function PrefixEnd(s: string, i: nat): (e: nat)
    requires i <= |s|
    ensures WidthEnd(s, i) <= e <= |s|
  {
    if HasPrecision(s, i) then RunEnd(s, WidthEnd(s, i) + 1, Digits) else WidthEnd(s, i)
  }

  /** The modifiers the prefix that starts at i spells, one part at a time. */
  function ModifiersAt(s: string, i: nat): Modifiers
    requires i <= |s|
  {
    Modifiers(AlignAt(s, i), FillAt(s, i), WidthAt(s, i), ZeroPadAt(s, i), PrecisionAt(s, i))
  }

  /** The alignment mark, when there is one; right alignment otherwise. */
  function AlignAt(s: string, i: nat): Align
    requires i <= |s|
  {
    if FillStart(s, i) > i then AlignOf(s[i]) else Right
  }

  /** The fill sequence, when width digits follow it; a space otherwise. */
  function FillAt(s: string, i: nat): Fill
    requires i <= |s|
  {
    var a, w0 := FillStart(s, i), WidthStart(s, i);
    if w0 > a then s[a..w0] else " "
  }

  /** The value of the width digits; 0 when there are none. */
  function WidthAt(s: string, i: nat): nat
    requires i <= |s|
  {
    Decimal.DigitsValue(s[WidthStart(s, i)..WidthEnd(s, i)])
  }

  /** Whether the width is written with a leading `0`. */
  predicate ZeroPadAt(s: string, i: nat)
    requires i <= |s|
  {
    WidthStart(s, i) < WidthEnd(s, i) && s[WidthStart(s, i)] == '0'
  }

  /** The value of the precision digits after the `.`, when there is one. */
  function PrecisionAt(s: string, i: nat): Option<nat>
    requires i <= |s|
  {
    if HasPrecision(s, i) then Some(Decimal.DigitsValue(s[WidthEnd(s, i) + 1..PrefixEnd(s, i)])) else None
  }

  /** The modifiers a raw prefix text stands for, as a value printer reads
      them from the prefix it is handed. */
  function ParseModifiers(prefix: string): Modifiers {
    ModifiersAt(prefix, 0)
  }

  /** A directive as scanned: its raw modifier prefix and its key. */
  datatype Directive = Directive(prefix: string, key: string)

  /** The directive that starts right after a token, at position i. The
      modifier prefix is read first; when no key follows it the parser
      backtracks and reads a key right at i, with no modifiers; when no key
      starts there either, there is no directive. */
  function ParseDirective(s: string, i: nat): (r: Option<Directive>)
    requires i <= |s|
    ensures r.Some? ==> i + |r.value.prefix| + |r.value.key| <= |s|
    ensures i < |s| && IsLetter(s[i]) ==> r.Some?
  {
    var p := PrefixEnd(s, i);
    var k := KeyEnd(s, p);
    if k > p then Some(Directive(s[i..p], s[p..k]))
    else
      var k0 := KeyEnd(s, i);
      if k0 > i then Some(Directive("", s[i..k0])) else None
  }

  /** A directive is read from its own text: the prefix and the key, one
      after the other, are the characters of the template from i on. */
  lemma DirectiveSpells(s: string, i: nat)
    requires i <= |s| && ParseDirective(s, i).Some?
    ensures var d := ParseDirective(s, i).value;
            s[i..i + |d.prefix| + |d.key|] == d.prefix + d.key
  {
    var p := PrefixEnd(s, i);
    var k := KeyEnd(s, p);
    if k > p {
      assert s[i..k] == s[i..p] + s[p..k];
    }
  }

  /** A directive's key is a whole identifier: it starts with a letter or
      underscore, holds only key characters, and the character after it
      cannot continue it. Its prefix, when there is one, is exactly what the
      modifier grammar read. */
  lemma DirectiveKey(s: string, i: nat)
    requires i <= |s| && ParseDirective(s, i).Some?
    ensures var d := ParseDirective(s, i).value;
            var e := i + |d.prefix| + |d.key|;
            && |d.key| > 0 && IsLetter(d.key[0])
            && (forall k | 0 <= k < |d.key| :: IsKeyChar(d.key[k]))
            && (e < |s| ==> !IsKeyChar(s[e]))
            && (d.prefix != [] ==> i + |d.prefix| == PrefixEnd(s, i))
  {
    var p := PrefixEnd(s, i);
    var k := KeyEnd(s, p);
    var d := ParseDirective(s, i).value;
    if k > p {
      assert d == Directive(s[i..p], s[p..k]);
      KeyKeyChars(s, p);
    } else {
      assert d == Directive("", s[i..KeyEnd(s, i)]);
      KeyKeyChars(s, i);
    }
  }

  /** The key that starts at i, read as a slice. */
  lemma KeyKeyChars(s: string, i: nat)
    requires i <= |s|
    ensures var key := s[i..KeyEnd(s, i)];
            && (forall k | 0 <= k < |key| :: IsKeyChar(key[k]))
            && (|key| > 0 ==> IsLetter(key[0]))
            && (i < KeyEnd(s, i) < |s| ==> !IsKeyChar(s[KeyEnd(s, i)]))
  {
    KeyEndIsMaximal(s, i);
    var key := s[i..KeyEnd(s, i)];
    forall k | 0 <= k < |key|
      ensures IsKeyChar(key[k])
    {
      assert key[k] == s[i + k];
    }
  }

  /** Digits that no key follows do not make a directive: a key never
      starts with a digit, and a width with no key after it is not one. */
  lemma DigitsAreNoDirective(s: string, i: nat, j: nat)
    requires i < j <= |s|
    requires forall k | i <= k < j :: Decimal.IsDigit(s[k])
    requires j < |s| ==> !IsKeyChar(s[j]) && s[j] != '.'
    ensures ParseDirective(s, i).None?
  {
    MaximalRunIsRunEnd(s, i, i, FillChars);
    MaximalRunIsRunEnd(s, i, j, Digits);
  }

  /** The modifier grammar reads a prefix cut out of the template as it read
      it in place: the same parts, shifted to the start, ending at the cut.
      So the value printer, which is only handed the prefix text, sees the
      modifiers the scanner read. */
  lemma ReparsePrefix(s: string, i: nat)
    requires i <= |s|
    ensures PrefixEnd(s[i..PrefixEnd(s, i)], 0) == PrefixEnd(s, i) - i
    ensures ModifiersAt(s[i..PrefixEnd(s, i)], 0) == ModifiersAt(s, i)
  {
    PrecisionOfPrefix(s, i);
    AlignOfPrefix(s, i);
    FillOfPrefix(s, i);
    WidthOfPrefix(s, i);
    PrecisionValueOfPrefix(s, i);
  }

  lemma AlignOfPrefix(s: string, i: nat)
    requires i <= |s|
    ensures AlignAt(s[i..PrefixEnd(s, i)], 0) == AlignAt(s, i)
  {
    FillStartOfPrefix(s, i);
  }

  lemma FillOfPrefix(s: string, i: nat)
    requires i <= |s|
    ensures FillAt(s[i..PrefixEnd(s, i)], 0) == FillAt(s, i)
  {
    var t := s[i..PrefixEnd(s, i)];
    var a, w0 := FillStart(s, i), WidthStart(s, i);
    FillStartOfPrefix(s, i);
    WidthStartOfPrefix(s, i);
    if w0 > a {
      SliceOfSlice(s, i, PrefixEnd(s, i), a, w0);
      FillCut(t, 0, a - i, w0 - i, FillAt(t, 0));
      FillCut(s, i, a, w0, FillAt(s, i));
    }
  }

  lemma FillCut(s: string, i: nat, a: nat, w0: nat, fill: Fill)
    requires i <= a < w0 <= |s| && FillStart(s, i) == a && WidthStart(s, i) == w0
    requires fill == FillAt(s, i)
    ensures fill == s[a..w0]
  {
  }

  lemma WidthOfPrefix(s: string, i: nat)
    requires i <= |s|
    ensures WidthAt(s[i..PrefixEnd(s, i)], 0) == WidthAt(s, i)
    ensures ZeroPadAt(s[i..PrefixEnd(s, i)], 0) == ZeroPadAt(s, i)
  {
    WidthStartOfPrefix(s, i);
    WidthEndOfPrefix(s, i);
    SliceOfSlice(s, i, PrefixEnd(s, i), WidthStart(s, i), WidthEnd(s, i));
  }

  lemma PrecisionValueOfPrefix(s: string, i: nat)
    requires i <= |s|
    ensures PrecisionAt(s[i..PrefixEnd(s, i)], 0) == PrecisionAt(s, i)
  {
    PrecisionOfPrefix(s, i);
    WidthEndOfPrefix(s, i);
    if HasPrecision(s, i) {
      SliceOfSlice(s, i, PrefixEnd(s, i), WidthEnd(s, i) + 1, PrefixEnd(s, i));
    }
  }

  lemma FillStartOfPrefix(s: string, i: nat)
    requires i <= |s|
    ensures FillStart(s[i..PrefixEnd(s, i)], 0) == FillStart(s, i) - i
  {
  }

  lemma WidthStartOfPrefix(s: string, i: nat)
    requires i <= |s|
    ensures WidthStart(s[i..PrefixEnd(s, i)], 0) == WidthStart(s, i) - i
  {
    var e := PrefixEnd(s, i);
    var a, w0 := FillStart(s, i), WidthStart(s, i);
    var f := RunEnd(s, a, FillChars);
    FillStartOfPrefix(s, i);
    RunEndOfSlice(s, i, e, a, FillChars);
    RunEndIsMaximal(s, a, FillChars);
    RunEndIsMaximal(s, w0, Digits);
    if w0 == a && f > a {
      assert IsFillChar(s[a]);
      MaximalRunIsRunEnd(s, a, a, Digits);
    }
  }

  lemma WidthEndOfPrefix(s: string, i: nat)
    requires i <= |s|
    ensures WidthEnd(s[i..PrefixEnd(s, i)], 0) == WidthEnd(s, i) - i
  {
    WidthStartOfPrefix(s, i);
    RunEndOfSlice(s, i, PrefixEnd(s, i), WidthStart(s, i), Digits);
  }

  lemma PrecisionOfPrefix(s: string, i: nat)
    requires i <= |s|
    ensures HasPrecision(s[i..PrefixEnd(s, i)], 0) == HasPrecision(s, i)
    ensures PrefixEnd(s[i..PrefixEnd(s, i)], 0) == PrefixEnd(s, i) - i
  {
    WidthEndOfPrefix(s, i);
    if HasPrecision(s, i) {
      RunEndOfSlice(s, i, PrefixEnd(s, i), WidthEnd(s, i) + 1, Digits);
    }
  }

  lemma SliceOfSlice(s: string, lo: nat, hi: nat, x: nat, y: nat)
    requires lo <= x <= y <= hi <= |s|
    ensures s[lo..hi][x - lo..y - lo] == s[x..y]
  {
    var t := s[lo..hi][x - lo..y - lo];
    assert |t| == y - x;
    forall k | 0 <= k < y - x
      ensures t[k] == s[x..y][k]
    {
      assert t[k] == s[lo..hi][k + x - lo];
    }
  }

  /** What the grammar sees in a slice: a run in s[lo..hi] ends where the run
      in s ends, or at hi. */
  lemma RunEndOfSlice(s: string, lo: nat, hi: nat, x: nat, cl: CharClass)
    requires lo <= x <= hi <= |s|
    ensures RunEnd(s[lo..hi], x - lo, cl) == (if RunEnd(s, x, cl) <= hi then RunEnd(s, x, cl) else hi) - lo
  {
    var j := RunEnd(s, x, cl);
    var m := if j <= hi then j else hi;
    RunEndIsMaximal(s, x, cl);
    var t := s[lo..hi];
    forall k | x - lo <= k < m - lo
      ensures In(t[k], cl)
    {
      assert t[k] == s[k + lo];
    }
    MaximalRunIsRunEnd(t, x - lo, m - lo, cl);
  }

  /** The value printer re-reads the directive's modifiers from its prefix
      text: what it reads is what the grammar read in the template, and an
      empty prefix (including the backtracked case) reads as Plain. */
  lemma DirectiveModifiers(s: string, i: nat)
    requires i <= |s| && ParseDirective(s, i).Some?
    ensures var d := ParseDirective(s, i).value;
            ParseModifiers(d.prefix) == if d.prefix == [] then Plain else ModifiersAt(s, i)
  {
    var d := ParseDirective(s, i).value;
    if d.prefix != [] {
      ReparsePrefix(s, i);
    }
  }

  /** A piece of a scanned template. */
  datatype Segment =
    | Text(text: string)       // copied to the output as it stands
    | Escape                   // two tokens in a row, which stand for one
    | Placeholder(d: Directive)

  /** The template text a segment was scanned from. */
  function SourceText(seg: Segment, token: char): string {
    match seg
    case Text(t) => t
    case Escape => [token, token]
    case Placeholder(d) => [token] + d.prefix + d.key
  }

  function Unscan(segs: seq<Segment>, token: char): string {
    if segs == [] then "" else SourceText(segs[0], token) + Unscan(segs[1..], token)
  }

  /** The segment that starts at position i. Its source text is never
      empty, so the scan moves on. */
  function NextSegment(s: string, token: char, i: nat): (seg: Segment)
    requires i < |s|
    ensures 0 < |SourceText(seg, token)| <= |s| - i
  {
    if s[i] != token then TextSegment(s, token, i) else TokenSegment(s, token, i)
  }

  /** Everything up to the next token is literal text. */
  function TextSegment(s: string, token: char, i: nat): (seg: Segment)
    requires i < |s| && s[i] != token
    ensures seg.Text? && 0 < |seg.text| <= |s| - i
  {
    var j := RunEnd(s, i, Except(token));
    assert j > i;
    Text(s[i..j])
  }

  /** At a token: a directive after it makes a placeholder; otherwise a
      second token makes an escape; otherwise the token is literal text. */
  function TokenSegment(s: string, token: char, i: nat): (seg: Segment)
    requires i < |s| && s[i] == token
    ensures 0 < |SourceText(seg, token)| <= |s| - i
  {
    var r := ParseDirective(s, i + 1);
    if r.Some? then Placeholder(r.value)
    else if i + 1 < |s| && s[i + 1] == token then Escape
    else Text([token])
  }

  /** The scanner: the template, from position i, cut into segments. */
  function Scan(s: string, token: char, i: nat): seq<Segment>
    requires i <= |s|
    decreases |s| - i
  {
    if i == |s| then []
    else
      var seg := NextSegment(s, token, i);
      [seg] + Scan(s, token, i + |SourceText(seg, token)|)
  }

  lemma UnscanCons(seg: Segment, rest: seq<Segment>, token: char)
    ensures Unscan([seg] + rest, token) == SourceText(seg, token) + Unscan(rest, token)
  {
    assert ([seg] + rest)[1..] == rest;
  }

  lemma ScanStep(s: string, token: char, i: nat)
    requires i < |s|
    ensures var seg := NextSegment(s, token, i);
            Scan(s, token, i) == [seg] + Scan(s, token, i + |SourceText(seg, token)|)
  {
  }

  /** An escape is scanned only from two tokens in a row. */
  lemma EscapeIsTwoTokens(s: string, token: char, i: nat)
    requires i < |s| && !(i + 1 < |s| && s[i] == token && s[i + 1] == token)
    ensures !NextSegment(s, token, i).Escape?
  {
  }

  predicate NoEscapes(segs: seq<Segment>) {
    forall j | 0 <= j < |segs| :: !segs[j].Escape?
  }

  /** No two tokens stand next to each other from position i on. */
  predicate NoDoubleToken(s: string, token: char, i: nat)
    requires i <= |s|
    decreases |s| - i
  {
    i + 1 >= |s| || (!(s[i] == token && s[i + 1] == token) && NoDoubleToken(s, token, i + 1))
  }

  lemma {:induction false} NoDoubleTokenLater(s: string, token: char, i: nat, j: nat)
    requires i <= j <= |s| && NoDoubleToken(s, token, i)
    ensures NoDoubleToken(s, token, j)
    decreases j - i
  {
    if i < j {
      NoDoubleTokenLater(s, token, i + 1, j);
    }
  }

  /** The predicate says what it promises: no position holds two tokens. */
  lemma {:induction false} NoDoubleTokenMeans(s: string, token: char, i: nat)
    requires i <= |s|
    ensures NoDoubleToken(s, token, i) <==> forall k | i <= k < |s| - 1 :: !(s[k] == token && s[k + 1] == token)
    decreases |s| - i
  {
    if i + 1 < |s| {
      NoDoubleTokenMeans(s, token, i + 1);
    }
  }

  /** Without two tokens in a row a template holds no escape. */
  lemma {:induction false} EscapesNeedTwoTokens(s: string, token: char, i: nat)
    requires i <= |s| && NoDoubleToken(s, token, i)
    ensures NoEscapes(Scan(s, token, i))
    decreases |s| - i
  {
    if i < |s| {
      NoDoubleTokenLater(s, token, i, i + |SourceText(NextSegment(s, token, i), token)|);
      EscapesNeedTwoTokens(s, token, i + |SourceText(NextSegment(s, token, i), token)|);
      NoEscapeStep(s, token, i);
    } else {
      assert Scan(s, token, i) == [];
    }
  }

  lemma NoEscapeStep(s: string, token: char, i: nat)
    requires i < |s| && !(i + 1 < |s| && s[i] == token && s[i + 1] == token)
    requires NoEscapes(Scan(s, token, i + |SourceText(NextSegment(s, token, i), token)|))
    ensures NoEscapes(Scan(s, token, i))
  {
    ScanStep(s, token, i);
    EscapeIsTwoTokens(s, token, i);
    NoEscapeCons(NextSegment(s, token, i), Scan(s, token, i + |SourceText(NextSegment(s, token, i), token)|));
  }

  lemma NoEscapeCons(seg: Segment, rest: seq<Segment>)
    requires !seg.Escape? && NoEscapes(rest)
    ensures NoEscapes([seg] + rest)
  {
  }

  /** Text without the token is one literal segment. */
  lemma ScanOfPlainText(s: string, token: char, i: nat)
    requires i < |s|
    requires forall k | i <= k < |s| :: s[k] != token
    ensures Scan(s, token, i) == [Text(s[i..])]
  {
    MaximalRunIsRunEnd(s, i, |s|, Except(token));
    assert s[i..|s|] == s[i..];
  }
}
