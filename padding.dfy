/** The padding engine: widens rendered text to a directive's minimum width
    with its alignment and fill sequence. */
module Padding {

  /** `+` (and no marker) aligns right, `-` left, `|` centres. */
  datatype Align = Right | Left | Center

  /** A fill sequence is never empty; a directive without one fills with a space. */
  type Fill = s: string | |s| > 0 witness " "

  /** n characters of the fill sequence repeated from its first character. */
  function Tile(fill: Fill, n: nat): (r: string)
    ensures |r| == n
    ensures forall k | 0 <= k < n :: r[k] == fill[k % |fill|]
    decreases n
  {
    if n <= |fill| then fill[..n]
    else
      var rest := Tile(fill, n - |fill|);
      TileShift(fill, rest, n);
      fill + rest
  }

  /** One more copy of the fill in front keeps the tiling. */
  lemma TileShift(fill: Fill, rest: string, n: nat)
    requires n > |fill| && |rest| == n - |fill|
    requires forall k | 0 <= k < |rest| :: rest[k] == fill[k % |fill|]
    ensures forall k | 0 <= k < n :: (fill + rest)[k] == fill[k % |fill|]
  {
    forall k | 0 <= k < n
      ensures (fill + rest)[k] == fill[k % |fill|]
    {
      if k >= |fill| {
        assert (fill + rest)[k] == rest[k - |fill|];
        ModShift(k, |fill|);
      } else {
        ModUnique(k, |fill|, 0, k);
      }
    }
  }

  lemma ModShift(k: int, m: int)
    requires 0 < m <= k
    ensures (k - m) % m == k % m
  {
    var q, r := k / m, k % m;
    assert k == q * m + r && 0 <= r < m;
    assert k - m == (q - 1) * m + r;
    ModUnique(k - m, m, q - 1, r);
  }

  lemma ModUnique(n: int, m: int, q: int, r: int)
    requires 0 < m && 0 <= r < m && n == q * m + r
    ensures n % m == r
  {
    var q2, r2 := n / m, n % m;
    assert (q - q2) * m == r2 - r by {
      assert n == q2 * m + r2;
    }
    if q > q2 {
      AtLeastOnce(q - q2, m);
    } else if q < q2 {
      AtLeastOnce(q2 - q, m);
    }
  }

  lemma AtLeastOnce(a: int, m: int)
    requires a >= 1 && m > 0
    ensures a * m >= m
  {
  }

  /** How many of `pad` fill characters go in front of the text. */
  function LeftShare(align: Align, pad: nat): (left: nat)
    ensures left <= pad
  {
    match align
    case Right => pad
    case Left => 0
    case Center => pad / 2
  }

  /** The text widened to at least `width` characters. The text is never
      truncated; the padding is split by the alignment, and each of the two
      pad regions is tiled from its own first character, the left region
      with `leftFill` and the right region with `rightFill`. A directive
      gives both its fill sequence, except that zero padding puts zeros in
      the left region only. */
  function Pad(text: string, align: Align, leftFill: Fill, rightFill: Fill, width: nat): (r: string)
    ensures |text| >= width ==> r == text
    ensures |r| == if |text| >= width then |text| else width
    ensures |text| < width ==>
              var left := LeftShare(align, width - |text|);
              && r[left..left + |text|] == text
              && (forall k | 0 <= k < left :: r[k] == leftFill[k % |leftFill|])
              && (forall k | left + |text| <= k < width :: r[k] == rightFill[(k - left - |text|) % |rightFill|])
  {
    if |text| >= width then text
    else
      var pad := width - |text|;
      var left := LeftShare(align, pad);
      var r := Tile(leftFill, left) + text + Tile(rightFill, pad - left);
      assert r[left..left + |text|] == text;
      r
  }

  /** Right alignment, the default, puts all padding before the text. */
  lemma RightPadsBefore(text: string, leftFill: Fill, rightFill: Fill, width: nat)
    requires |text| < width
    ensures Pad(text, Right, leftFill, rightFill, width) == Tile(leftFill, width - |text|) + text
  {
    var r := Pad(text, Right, leftFill, rightFill, width);
    var p := Tile(leftFill, width - |text|) + text;
    assert |r| == |p|;
    forall k | 0 <= k < |r| ensures r[k] == p[k] {
      if k >= width - |text| {
        assert r[k] == r[width - |text|..width][k - (width - |text|)];
      }
    }
  }

  /** Left alignment puts all padding after the text. */
  lemma LeftPadsAfter(text: string, leftFill: Fill, rightFill: Fill, width: nat)
    requires |text| < width
    ensures Pad(text, Left, leftFill, rightFill, width) == text + Tile(rightFill, width - |text|)
  {
    var r := Pad(text, Left, leftFill, rightFill, width);
    var p := text + Tile(rightFill, width - |text|);
    assert |r| == |p|;
    forall k | 0 <= k < |r| ensures r[k] == p[k] {
      if k < |text| {
        assert r[k] == r[0..|text|][k];
      }
    }
  }

  /** Centring gives the left side half the padding rounded down and the
      right side the rest, so an odd leftover goes to the right. */
  lemma CenterSplitsPadding(text: string, leftFill: Fill, rightFill: Fill, width: nat)
    requires |text| < width
    ensures var pad := width - |text|;
            Pad(text, Center, leftFill, rightFill, width) == Tile(leftFill, pad / 2) + text + Tile(rightFill, pad - pad / 2)
    ensures var pad := width - |text|;
            pad - pad / 2 == pad / 2 + pad % 2
  {
    var pad := width - |text|;
    assert LeftShare(Center, pad) == pad / 2;
  }
}
