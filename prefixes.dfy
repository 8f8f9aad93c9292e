/** The modifier prefixes of the golden cases, each read once. */
module Prefixes {
  import opened Values
  import opened Grammar
  import opened Padding
  import Decimal

  /** The prefix "%10": right-aligned, filled with "%", at least 10 wide. */
  lemma PrefixPercent10()
    ensures ParseModifiers("%10") == Modifiers(Right, "%", 10, false, None)
  {
    assert FillStart("%10", 0) == 0;
    assert RunEnd("%10", 0, FillChars) == 1;
    assert WidthStart("%10", 0) == 1;
    assert RunEnd("%10", 1, Digits) == 3;
    assert WidthEnd("%10", 0) == 3;
    assert !HasPrecision("%10", 0);
    assert "%10"[0..1] == "%";
    assert "%10"[1..3] == "10";
    assert Decimal.DigitsValue("10") == 10;
  }

  /** The prefix "++10": right-aligned, filled with "+", at least 10 wide. */
  lemma PrefixPlusPlus10()
    ensures ParseModifiers("++10") == Modifiers(Right, "+", 10, false, None)
  {
    assert FillStart("++10", 0) == 1;
    assert RunEnd("++10", 1, FillChars) == 2;
    assert WidthStart("++10", 0) == 2;
    assert RunEnd("++10", 2, Digits) == 4;
    assert WidthEnd("++10", 0) == 4;
    assert !HasPrecision("++10", 0);
    assert "++10"[1..2] == "+";
    assert "++10"[2..4] == "10";
    assert Decimal.DigitsValue("10") == 10;
  }

  /** The prefix "+-10": right-aligned, filled with "-", at least 10 wide. */
  lemma PrefixPlusMinus10()
    ensures ParseModifiers("+-10") == Modifiers(Right, "-", 10, false, None)
  {
    assert FillStart("+-10", 0) == 1;
    assert RunEnd("+-10", 1, FillChars) == 2;
    assert WidthStart("+-10", 0) == 2;
    assert RunEnd("+-10", 2, Digits) == 4;
    assert WidthEnd("+-10", 0) == 4;
    assert !HasPrecision("+-10", 0);
    assert "+-10"[1..2] == "-";
    assert "+-10"[2..4] == "10";
    assert Decimal.DigitsValue("10") == 10;
  }

  /** The prefix "+10": right-aligned, at least 10 wide. */
  lemma PrefixPlus10()
    ensures ParseModifiers("+10") == Modifiers(Right, " ", 10, false, None)
  {
    assert FillStart("+10", 0) == 1;
    assert RunEnd("+10", 1, FillChars) == 1;
    assert WidthStart("+10", 0) == 1;
    assert RunEnd("+10", 1, Digits) == 3;
    assert WidthEnd("+10", 0) == 3;
    assert !HasPrecision("+10", 0);
    assert "+10"[1..3] == "10";
    assert Decimal.DigitsValue("10") == 10;
  }

  /** The prefix "+10.0": right-aligned, at least 10 wide, with precision 0. */
  lemma PrefixPlus10Dot0()
    ensures ParseModifiers("+10.0") == Modifiers(Right, " ", 10, false, Some(0))
  {
    assert FillStart("+10.0", 0) == 1;
    assert RunEnd("+10.0", 1, FillChars) == 1;
    assert WidthStart("+10.0", 0) == 1;
    assert RunEnd("+10.0", 1, Digits) == 3;
    assert WidthEnd("+10.0", 0) == 3;
    assert HasPrecision("+10.0", 0);
    assert RunEnd("+10.0", 4, Digits) == 5;
    assert "+10.0"[4..5] == "0";
    assert Decimal.DigitsValue("0") == 0;
    assert "+10.0"[1..3] == "10";
    assert Decimal.DigitsValue("10") == 10;
  }

  /** The prefix "-+10": left-aligned, filled with "+", at least 10 wide. */
  lemma PrefixMinusPlus10()
    ensures ParseModifiers("-+10") == Modifiers(Left, "+", 10, false, None)
  {
    assert FillStart("-+10", 0) == 1;
    assert RunEnd("-+10", 1, FillChars) == 2;
    assert WidthStart("-+10", 0) == 2;
    assert RunEnd("-+10", 2, Digits) == 4;
    assert WidthEnd("-+10", 0) == 4;
    assert !HasPrecision("-+10", 0);
    assert "-+10"[1..2] == "+";
    assert "-+10"[2..4] == "10";
    assert Decimal.DigitsValue("10") == 10;
  }

  /** The prefix "--10": left-aligned, filled with "-", at least 10 wide. */
  lemma PrefixMinusMinus10()
    ensures ParseModifiers("--10") == Modifiers(Left, "-", 10, false, None)
  {
    assert FillStart("--10", 0) == 1;
    assert RunEnd("--10", 1, FillChars) == 2;
    assert WidthStart("--10", 0) == 2;
    assert RunEnd("--10", 2, Digits) == 4;
    assert WidthEnd("--10", 0) == 4;
    assert !HasPrecision("--10", 0);
    assert "--10"[1..2] == "-";
    assert "--10"[2..4] == "10";
    assert Decimal.DigitsValue("10") == 10;
  }

  /** The prefix "-10": left-aligned, at least 10 wide. */
  lemma PrefixMinus10()
    ensures ParseModifiers("-10") == Modifiers(Left, " ", 10, false, None)
  {
    assert FillStart("-10", 0) == 1;
    assert RunEnd("-10", 1, FillChars) == 1;
    assert WidthStart("-10", 0) == 1;
    assert RunEnd("-10", 1, Digits) == 3;
    assert WidthEnd("-10", 0) == 3;
    assert !HasPrecision("-10", 0);
    assert "-10"[1..3] == "10";
    assert Decimal.DigitsValue("10") == 10;
  }

  /** The prefix ".": right-aligned, no width, with precision 0. */
  lemma PrefixDot()
    ensures ParseModifiers(".") == Modifiers(Right, " ", 0, false, Some(0))
  {
    assert FillStart(".", 0) == 0;
    assert RunEnd(".", 0, FillChars) == 0;
    assert WidthStart(".", 0) == 0;
    assert RunEnd(".", 0, Digits) == 0;
    assert WidthEnd(".", 0) == 0;
    assert HasPrecision(".", 0);
    assert RunEnd(".", 1, Digits) == 1;
    assert "."[1..1] == "";
    assert Decimal.DigitsValue("") == 0;
    assert "."[0..0] == "";
    assert Decimal.DigitsValue("") == 0;
  }

  /** The prefix ".0": right-aligned, no width, with precision 0. */
  lemma PrefixDot0()
    ensures ParseModifiers(".0") == Modifiers(Right, " ", 0, false, Some(0))
  {
    assert FillStart(".0", 0) == 0;
    assert RunEnd(".0", 0, FillChars) == 0;
    assert WidthStart(".0", 0) == 0;
    assert RunEnd(".0", 0, Digits) == 0;
    assert WidthEnd(".0", 0) == 0;
    assert HasPrecision(".0", 0);
    assert RunEnd(".0", 1, Digits) == 2;
    assert ".0"[1..2] == "0";
    assert Decimal.DigitsValue("0") == 0;
    assert ".0"[0..0] == "";
    assert Decimal.DigitsValue("") == 0;
  }

  /** The prefix ".3": right-aligned, no width, with precision 3. */
  lemma PrefixDot3()
    ensures ParseModifiers(".3") == Modifiers(Right, " ", 0, false, Some(3))
  {
    assert FillStart(".3", 0) == 0;
    assert RunEnd(".3", 0, FillChars) == 0;
    assert WidthStart(".3", 0) == 0;
    assert RunEnd(".3", 0, Digits) == 0;
    assert WidthEnd(".3", 0) == 0;
    assert HasPrecision(".3", 0);
    assert RunEnd(".3", 1, Digits) == 2;
    assert ".3"[1..2] == "3";
    assert Decimal.DigitsValue("3") == 3;
    assert ".3"[0..0] == "";
    assert Decimal.DigitsValue("") == 0;
  }

  /** The prefix "10": right-aligned, at least 10 wide. */
  lemma Prefix10()
    ensures ParseModifiers("10") == Modifiers(Right, " ", 10, false, None)
  {
    assert FillStart("10", 0) == 0;
    assert RunEnd("10", 0, FillChars) == 0;
    assert WidthStart("10", 0) == 0;
    assert RunEnd("10", 0, Digits) == 2;
    assert WidthEnd("10", 0) == 2;
    assert !HasPrecision("10", 0);
    assert "10"[0..2] == "10";
    assert Decimal.DigitsValue("10") == 10;
  }

  /** The prefix "|10": centred, at least 10 wide. */
  lemma PrefixCenter10()
    ensures ParseModifiers("|10") == Modifiers(Center, " ", 10, false, None)
  {
    assert FillStart("|10", 0) == 1;
    assert RunEnd("|10", 1, FillChars) == 1;
    assert WidthStart("|10", 0) == 1;
    assert RunEnd("|10", 1, Digits) == 3;
    assert WidthEnd("|10", 0) == 3;
    assert !HasPrecision("|10", 0);
    assert "|10"[1..3] == "10";
    assert Decimal.DigitsValue("10") == 10;
  }

  /** The prefix "|AB10": centred, filled with "AB", at least 10 wide. */
  lemma PrefixCenterAB10()
    ensures ParseModifiers("|AB10") == Modifiers(Center, "AB", 10, false, None)
  {
    assert FillStart("|AB10", 0) == 1;
    assert RunEnd("|AB10", 1, FillChars) == 3;
    assert WidthStart("|AB10", 0) == 3;
    assert RunEnd("|AB10", 3, Digits) == 5;
    assert WidthEnd("|AB10", 0) == 5;
    assert !HasPrecision("|AB10", 0);
    assert "|AB10"[1..3] == "AB";
    assert "|AB10"[3..5] == "10";
    assert Decimal.DigitsValue("10") == 10;
  }

  /** The fill sequence runs across a space and a further token up to the
      first digit: after the token, "A %1B" is one directive whose prefix
      is "A %1" (fill "A %", width 1) and whose key is "B". */
  lemma FillCrossesToken()
    ensures ParseDirective("%A %1B", 1) == Some(Directive("A %1", "B"))
    ensures FillAt("%A %1B", 1) == "A %" && WidthAt("%A %1B", 1) == 1
  {
    var s := "%A %1B";
    assert FillStart(s, 1) == 1;
    assert RunEnd(s, 1, FillChars) == 4;
    assert WidthStart(s, 1) == 4;
    assert RunEnd(s, 4, Digits) == 5;
    assert WidthEnd(s, 1) == 5;
    assert !HasPrecision(s, 1);
    assert PrefixEnd(s, 1) == 5;
    assert KeyEnd(s, 5) == 6;
    assert s[1..5] == "A %1" && s[5..6] == "B" && s[1..4] == "A %" && s[4..5] == "1";
    assert Decimal.DigitsValue("1") == 1;
  }

  /** When a space follows the width digits no key follows the prefix, so
      the parser falls back to the bare key at the token: after the token,
      "Name has 3 apples" is the directive keyed "Name" with no modifiers. */
  lemma SpaceAfterWidthFallsBack()
    ensures ParseDirective("%Name has 3 apples", 1) == Some(Directive("", "Name"))
  {
    var s := "%Name has 3 apples";
    assert FillStart(s, 1) == 1;
    assert RunEnd(s, 1, FillChars) == 10;
    assert WidthStart(s, 1) == 10;
    assert RunEnd(s, 10, Digits) == 11;
    assert WidthEnd(s, 1) == 11;
    assert !HasPrecision(s, 1);
    assert PrefixEnd(s, 1) == 11;
    assert KeyEnd(s, 11) == 11;
    assert KeyEnd(s, 1) == 5;
    assert s[1..5] == "Name";
  }

  /** A digit inside a key splits it: after the token, "md5sum" is the key
      "sum" with fill "md" and width 5. */
  lemma DigitSplitsKey()
    ensures ParseDirective("%md5sum", 1) == Some(Directive("md5", "sum"))
    ensures ParseModifiers("md5") == Modifiers(Right, "md", 5, false, None)
  {
    var s := "%md5sum";
    assert FillStart(s, 1) == 1;
    assert RunEnd(s, 1, FillChars) == 3;
    assert WidthStart(s, 1) == 3;
    assert RunEnd(s, 3, Digits) == 4;
    assert WidthEnd(s, 1) == 4;
    assert !HasPrecision(s, 1);
    assert PrefixEnd(s, 1) == 4;
    assert KeyEnd(s, 4) == 7;
    assert s[1..4] == "md5" && s[4..7] == "sum";
    assert FillStart("md5", 0) == 0;
    assert RunEnd("md5", 0, FillChars) == 2;
    assert WidthStart("md5", 0) == 2;
    assert RunEnd("md5", 2, Digits) == 3;
    assert WidthEnd("md5", 0) == 3;
    assert !HasPrecision("md5", 0);
    assert "md5"[0..2] == "md" && "md5"[2..3] == "5";
    assert Decimal.DigitsValue("5") == 5;
  }
}
